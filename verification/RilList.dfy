/**
 The circular doubly linked lists of ril_event.cpp. A list is a head node, which is no event,
 and the events linked round from it; the ghost sequence of those events is passed along.
 */
module RilList {
  import opened RilTime

  class Event {
    var next: Event?
    var prev: Event?
    var fd: int
    var index: int
    var persist: bool
    var timeout: TimeVal

    constructor (fd: int, persist: bool)
      ensures this.fd == fd && this.persist == persist && index == -1 && timeout == TimeVal(0, 0)
      ensures next == null && prev == null
    {
      next, prev := null, null;
      this.fd, index, this.persist, timeout := fd, -1, persist, TimeVal(0, 0);
    }
  }

  function Round(head: Event, items: seq<Event>): (r: seq<Event>)
    ensures |r| == |items| + 2 && r[0] == head && r[|items| + 1] == head
    ensures forall i :: 0 <= i < |items| ==> r[i + 1] == items[i]
  {
    [head] + items + [head]
  }

  function At(head: Event, items: seq<Event>, p: nat): Event
    requires p < |items| + 2
  {
    Round(head, items)[p]
  }

  ghost function Nodes(head: Event, items: seq<Event>): set<Event> {
    {head} + set e | e in items
  }

  ghost predicate Distinct(items: seq<Event>) {
    forall i, j :: 0 <= i < j < |items| ==> items[i] != items[j]
  }

  /** The two links between neighbours. */
  predicate Joined(a: Event, b: Event)
    reads a`next, b`prev
  {
    a.next == b && b.prev == a
  }

  ghost predicate JoinedAt(head: Event, items: seq<Event>, i: nat)
    requires i <= |items|
    reads head`next, head`prev, items`next, items`prev
  {
    Joined(At(head, items, i), At(head, items, i + 1))
  }

  /** items are the events of the list at head, in order. */
  ghost predicate IsList(head: Event, items: seq<Event>)
    reads head`next, head`prev, items`next, items`prev
  {
    && head !in items && Distinct(items)
    && forall i :: 0 <= i <= |items| ==> JoinedAt(head, items, i)
  }

  /** init_list */
  method InitList(list: Event)
    modifies list
    ensures IsList(list, []) && list.fd == -1 && list.timeout == TimeVal(0, 0) && list.index == 0
  {
    list.index, list.persist, list.timeout := 0, false, TimeVal(0, 0);
    list.next := list;
    list.prev := list;
    list.fd := -1;
  }

  function Inserted(items: seq<Event>, p: nat, ev: Event): seq<Event>
    requires p <= |items|
  {
    items[..p] + [ev] + items[p..]
  }

  /** addToList: ev goes in front of list, which is the event at position p, or the head. */
  method AddToList(ev: Event, list: Event, ghost head: Event, ghost items: seq<Event>, ghost p: nat)
    requires IsList(head, items) && p <= |items| && list == At(head, items, p + 1)
    requires ev != head && ev !in items
    modifies ev`next, ev`prev, list`prev, At(head, items, p)`next
    ensures IsList(head, Inserted(items, p, ev))
  {
    assert JoinedAt(head, items, p);
    ghost var items' := Inserted(items, p, ev);
    ev.next := list;
    ev.prev := list.prev;
    ev.prev.next := ev;
    list.prev := ev;
    forall i | 0 <= i <= |items'| ensures JoinedAt(head, items', i) {
      if i < p {
        assert old(JoinedAt(head, items, i));
      } else if i > p + 1 {
        assert old(JoinedAt(head, items, i - 1));
      }
    }
  }

  function Without(items: seq<Event>, p: nat): seq<Event>
    requires p < |items|
  {
    items[..p] + items[p + 1..]
  }

  /** removeFromList */
  method RemoveFromList(ev: Event, ghost head: Event, ghost items: seq<Event>, ghost p: nat)
    requires IsList(head, items) && p < |items| && ev == items[p]
    modifies ev`next, ev`prev, At(head, items, p)`next, At(head, items, p + 2)`prev
    ensures IsList(head, Without(items, p)) && ev.next == null && ev.prev == null
  {
    ghost var items' := Without(items, p);
    assert JoinedAt(head, items, p) && JoinedAt(head, items, p + 1);
    ev.next.prev := ev.prev;
    ev.prev.next := ev.next;
    ev.next := null;
    ev.prev := null;
    forall i | 0 <= i <= |items'| ensures JoinedAt(head, items', i) {
      if i < p {
        assert old(JoinedAt(head, items, i));
      } else if i > p {
        assert old(JoinedAt(head, items, i + 1));
      }
    }
  }

  /** Two lists without a node in common. */
  ghost predicate Apart(head: Event, items: seq<Event>, head': Event, items': seq<Event>) {
    Nodes(head, items) !! Nodes(head', items')
  }

  /** addToList leaves a list apart from this one alone. */
  method AddBeside(ev: Event, list: Event, ghost head: Event, ghost items: seq<Event>, ghost p: nat,
                   ghost head': Event, ghost items': seq<Event>)
    requires IsList(head, items) && p <= |items| && list == At(head, items, p + 1)
    requires ev != head && ev !in items
    requires IsList(head', items') && Apart(head, items + [ev], head', items')
    modifies Nodes(head, items)`next, Nodes(head, items)`prev, ev`next, ev`prev
    ensures IsList(head, Inserted(items, p, ev)) && IsList(head', items')
    ensures Apart(head, Inserted(items, p, ev), head', items')
  {
    assert ev in Nodes(head, items + [ev]) && Nodes(head, items) <= Nodes(head, items + [ev]);
    assert Nodes(head, Inserted(items, p, ev)) == Nodes(head, items + [ev]);
    AddToList(ev, list, head, items, p);
    forall i | 0 <= i <= |items'| ensures JoinedAt(head', items', i) {
      assert old(JoinedAt(head', items', i));
      assert At(head', items', i) in Nodes(head', items') && At(head', items', i + 1) in Nodes(head', items');
    }
  }

  /** addToList at the end of a list. */
  method Append(ev: Event, head: Event, ghost items: seq<Event>, ghost head': Event, ghost items': seq<Event>)
    requires IsList(head, items) && ev != head && ev !in items
    requires IsList(head', items') && Apart(head, items + [ev], head', items')
    modifies Nodes(head, items)`next, Nodes(head, items)`prev, ev`next, ev`prev
    ensures IsList(head, items + [ev]) && IsList(head', items')
  {
    assert Inserted(items, |items|, ev) == items + [ev];
    AddBeside(ev, head, head, items, |items|, head', items');
  }

  /** removeFromList of the first event of a list; next is what followed it. */
  method DropFirst(ev: Event, head: Event, ghost items: seq<Event>, ghost head': Event, ghost items': seq<Event>)
    returns (next: Event)
    requires IsList(head, items) && items != [] && ev == items[0]
    requires IsList(head', items') && Apart(head, items, head', items')
    modifies Nodes(head, items)`next, Nodes(head, items)`prev
    ensures IsList(head, items[1..]) && next == At(head, items[1..], 1) && IsList(head', items')
  {
    assert JoinedAt(head, items, 1) && At(head, items, 2) == At(head, items[1..], 1);
    assert Without(items, 0) == items[1..];
    next := ev.next;
    RemoveFromList(ev, head, items, 0);
    forall i | 0 <= i <= |items'| ensures JoinedAt(head', items', i) {
      assert old(JoinedAt(head', items', i));
      assert At(head', items', i) in Nodes(head', items') && At(head', items', i + 1) in Nodes(head', items');
    }
  }

  lemma Shift<T>(moved: seq<T>, left: seq<T>)
    requires left != []
    ensures (moved + [left[0]]) + left[1..] == moved + left
  {
    assert left == [left[0]] + left[1..];
  }

  /** The loop of firePending: every event is unlinked, in order, and then called. */
  method Drain(head: Event, ghost items: seq<Event>, ghost head': Event, ghost items': seq<Event>)
    returns (called: seq<Event>)
    requires IsList(head, items) && IsList(head', items') && Apart(head, items, head', items')
    modifies Nodes(head, items)`next, Nodes(head, items)`prev
    ensures IsList(head, []) && called == items && IsList(head', items')
  {
    called := [];
    ghost var left := items;
    assert JoinedAt(head, items, 0);
    var ev: Event := head.next;
    while ev != head
      invariant IsList(head, left) && called + left == items && ev == At(head, left, 1)
      invariant IsList(head', items') && Nodes(head, left) <= Nodes(head, items)
      decreases |left|
    {
      assert left != [] && ev == left[0];
      Shift(called, left);
      var next := DropFirst(ev, head, left, head', items');
      called := called + [ev];
      ev, left := next, left[1..];
    }
  }
}
