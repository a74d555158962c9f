/** The head and tail list of linked_list.c, linked both ways. */
module LinkedList {
  import opened Common
  import opened ListModel

  class Element<D> {
    var next: Element?<D>
    var prev: Element?<D>
    const data: D
    const dealloc: bool

    constructor (data: D, dealloc: bool)
      ensures this.data == data && this.dealloc == dealloc && next == null && prev == null
    {
      this.data, this.dealloc, next, prev := data, dealloc, null, null;
    }
  }

  /** The element at position i, or null beyond either end. */
  ghost function At<D>(es: seq<Element<D>>, i: int): Element?<D> {
    if 0 <= i < |es| then es[i] else null
  }

  ghost predicate LinkedAt<D>(es: seq<Element<D>>, i: nat)
    requires i < |es|
    reads es`next, es`prev
  {
    es[i].next == At(es, i + 1) && es[i].prev == At(es, i - 1)
  }

  ghost predicate Distinct<D>(es: seq<Element<D>>) {
    forall i, j :: 0 <= i < j < |es| ==> es[i] != es[j]
  }

  /** The elements hold these items. */
  ghost predicate Hold<D>(es: seq<Element<D>>, items: seq<Item<D>>) {
    |items| == |es| && forall i :: 0 <= i < |es| ==> items[i] == Item(es[i].data, es[i].dealloc)
  }

  lemma HoldUnlinked<D>(es: seq<Element<D>>, items: seq<Item<D>>, i: nat)
    requires Hold(es, items) && i < |es|
    ensures Hold(es[..i] + es[i + 1..], Unlinked(items, i))
  {
  }

  lemma FlushFirst<D>(s: State<D>)
    requires s.items != []
    ensures DoFlush(s) == DoFlush(Free(s, s.items[0]).(items := s.items[1..]))
  {
  }

  /** What a search that removes the element at position i does with its data. */
  lemma SearchTakes<D>(s: State<D>, equal: D -> bool, copyOut: bool, i: nat, calls: seq<Item<D>>)
    requires i == FirstMatch(s.items, equal) && i < |s.items| && s.dealloced == multiset(calls)
    ensures var s' := DoSearch(s, equal, copyOut, true);
      && s'.items == Unlinked(s.items, i)
      && s'.dealloced == multiset(calls + if !copyOut && s.items[i].dealloc then [s.items[i]] else [])
  {
  }

  /** What the arguments and the first match say a search does to the list. */
  lemma SearchStep<D>(s: State<D>, equal: D -> bool, copyOut: bool, rmIfFound: bool)
    ensures Step(s, ListModel.Search(equal, copyOut, rmIfFound)) ==
      if FirstMatch(s.items, equal) < |s.items| && rmIfFound then DoSearch(s, equal, copyOut, true) else s
  {
  }

  /** What dealloc is called with when search takes out this element. */
  ghost function Called<D>(tmp: Element<D>, copyOut: bool): seq<Item<D>> {
    if !copyOut && tmp.dealloc then [Item(tmp.data, true)] else []
  }

  class List<D(==)> {
    var head: Element?<D>
    var tail: Element?<D>
    // the elements whose data dealloc functions were called with, in order
    var deallocCalls: seq<Item<D>>
    ghost var elems: seq<Element<D>>
    ghost var state: State<D>

    /** linked_list_init */
    constructor ()
      ensures Valid() && state == Init() && deallocCalls == [] && elems == []
    {
      head, tail, deallocCalls, elems, state := null, null, [], [], Init();
    }

    ghost predicate Linked()
      reads this`head, this`tail, this`elems, elems`next, elems`prev
    {
      && head == At(elems, 0) && tail == At(elems, |elems| - 1)
      && Distinct(elems) && forall i :: 0 <= i < |elems| ==> LinkedAt(elems, i)
    }

    ghost predicate Valid()
      reads this, elems`next, elems`prev
    {
      && Linked() && Hold(elems, state.items)
      && state.dealloced == multiset(deallocCalls)
    }

    // ---------- The links ----------

    /** linked_list_add from the replacement of the head element on. */
    method LinkHead(elem: Element<D>)
      requires Linked() && elem !in elems && elem.next == null && elem.prev == null
      modifies this`head, this`tail, this`elems, elem`next, elems`prev
      ensures Linked() && elems == [elem] + old(elems)
    {
      assert elems != [] ==> LinkedAt(elems, 0);
      var tmp := head;
      head := elem;
      head.next := tmp;
      if tmp != null {
        tmp.prev := head;
      } else {
        tail := head;
      }
      ghost var was, es := elems, [elem] + elems;
      elems := es;
      forall i | 0 <= i < |es| ensures LinkedAt(es, i) {
        assert i > 0 ==> es[i] == was[i - 1] && old(LinkedAt(was, i - 1));
      }
    }

    /** linked_list_remove: the tail element is replaced. */
    method CutTail() returns (tmp: Element<D>)
      requires Linked() && elems != []
      modifies this`head, this`tail, this`elems, elems`next
      ensures Linked() && elems == old(elems)[..|old(elems)| - 1] && tmp == old(elems)[|old(elems)| - 1]
    {
      ghost var was, es := elems, elems[..|elems| - 1];
      assert LinkedAt(was, |was| - 1);
      tmp := tail;
      tail := tmp.prev;
      if tail != null {
        tail.next := null;
      } else {
        head := tail;
      }
      elems := es;
      forall i | 0 <= i < |es| ensures LinkedAt(es, i) {
        assert es[i] == was[i] && old(LinkedAt(was, i));
      }
    }

    /** linked_list_search: the found element is taken out. */
    method Unlink(tmp: Element<D>, ghost i: nat)
      requires Linked() && i < |elems| && tmp == elems[i]
      modifies this`head, this`tail, this`elems, elems`next, elems`prev
      ensures Linked() && elems == old(elems)[..i] + old(elems)[i + 1..]
    {
      ghost var was, es := elems, elems[..i] + elems[i + 1..];
      assert LinkedAt(was, i);
      if tmp.prev == null {
        head := tmp.next;
      } else {
        tmp.prev.next := tmp.next;
      }
      if tmp.next == null {
        tail := tmp.prev;
      } else {
        tmp.next.prev := tmp.prev;
      }
      tmp.prev, tmp.next := null, null;
      elems := es;
      assert forall k :: 0 <= k < |es| ==> es[k] == was[if k < i then k else k + 1];
      forall k | 0 <= k < |es| ensures LinkedAt(es, k) {
        assert old(LinkedAt(was, if k < i then k else k + 1));
      }
    }

    // ---------- The operations ----------

    /** linked_list_add; None is a null data_obj. */
    method Add(data: Option<D>, dealloc: bool) returns (err: Error)
      requires Valid()
      modifies this, elems
      ensures Valid() && deallocCalls == old(deallocCalls)
      ensures match data
        case None => err == InvalidParameter && state == old(state)
        case Some(d) =>
          && err == Success && state == Step(old(state), ListModel.Add(d, dealloc))
          && state.items == [Item(d, dealloc)] + old(state).items
    {
      if data.None? {
        return InvalidParameter;
      }
      var elem := new Element(data.value, dealloc);
      LinkHead(elem);
      state := Step(state, ListModel.Add(data.value, dealloc));
      err := Success;
    }

    /** linked_list_remove; wanted is false for a null data_obj. */
    method Remove(wanted: bool) returns (err: Error, data: Option<D>)
      requires Valid()
      modifies this, elems
      ensures Valid() && deallocCalls == old(deallocCalls)
      ensures err == if !wanted then InvalidParameter
                     else if old(state).items == [] then UnavailableResource else Success
      ensures err != Success ==> data == None && state == old(state)
      ensures err == Success ==>
        && state == Step(old(state), ListModel.Remove)
        && var n := |old(state).items| - 1;
           data == Some(old(state).items[n].data) && state.items == old(state).items[..n]
    {
      data := None;
      if !wanted {
        return InvalidParameter, data;
      }
      if tail == null {
        return UnavailableResource, data;
      }
      var tmp := CutTail();
      data := Some(tmp.data);
      state := Step(state, ListModel.Remove);
      err := Success;
    }

    /** linked_list_empty */
    method Empty() returns (r: int)
      requires Valid()
      ensures r == if state.items == [] then 1 else 0
    {
      r := if head == null then 1 else 0;
    }

    /** What flush does for the head, but for the step to the next element. */
    method FreeHead(ghost items: seq<Item<D>>, ghost n: nat) returns (tmp: Element?<D>)
      requires n < |elems| == |items| && head == elems[n] && LinkedAt(elems, n)
      requires items[n] == Item(head.data, head.dealloc) && state.items == items[n..]
      requires state.dealloced == multiset(deallocCalls)
      modifies this`deallocCalls, this`state
      ensures tmp == At(elems, n + 1) && state.items == items[n + 1..]
      ensures DoFlush(state) == DoFlush(old(state)) && state.dealloced == multiset(deallocCalls)
      ensures deallocCalls + Freed(state.items) == old(deallocCalls) + Freed(old(state).items)
    {
      tmp := head.next;
      ghost var calls := if head.dealloc then [Item(head.data, head.dealloc)] else [];
      if head.dealloc {
        deallocCalls := deallocCalls + [Item(head.data, head.dealloc)];
      }
      assert items[n..][0] == items[n] && items[n..][1..] == items[n + 1..];
      FlushFirst(state);
      state := Free(state, items[n]).(items := items[n + 1..]);
      assert Freed(items[n..]) == calls + Freed(items[n + 1..]);
    }

    /** The loop of linked_list_flush. */
    method FreeAll()
      requires Valid()
      modifies this`head, this`deallocCalls, this`state
      ensures head == null && state == DoFlush(old(state)) && state.items == []
      ensures state.dealloced == multiset(deallocCalls) && deallocCalls == old(deallocCalls) + Freed(old(state).items)
    {
      ghost var es, items, n := elems, state.items, 0;
      ghost var end, calls := DoFlush(state), deallocCalls + Freed(state.items);
      while head != null
        invariant n <= |es| == |items| && head == At(es, n)
        invariant state.items == items[n..] && DoFlush(state) == end
        invariant deallocCalls + Freed(state.items) == calls && state.dealloced == multiset(deallocCalls)
        decreases |es| - n
      {
        assert old(LinkedAt(es, n)) && old(state.items)[n] == items[n];
        var tmp := FreeHead(items, n);
        head, n := tmp, n + 1;
      }
      assert state.items == [];
    }

    /** linked_list_flush */
    method Flush() returns (err: Error)
      requires Valid()
      modifies this
      ensures Valid() && err == Success && head == null && tail == null
      ensures state == Step(old(state), ListModel.Flush) && state.items == []
      ensures deallocCalls == old(deallocCalls) + Freed(old(state).items)
    {
      FreeAll();
      tail := null;
      elems := [];
      err := Success;
    }

    /** What search does with a found element that is to be removed. */
    method TakeFound(tmp: Element<D>, ghost i: nat, copyOut: bool, ghost after: State<D>)
      requires Valid() && i < |elems| && tmp == elems[i] && after.items == Unlinked(state.items, i)
      requires after.dealloced == multiset(deallocCalls + Called(tmp, copyOut))
      modifies this, elems
      ensures Valid() && state == after && deallocCalls == old(deallocCalls) + Called(tmp, copyOut)
    {
      HoldUnlinked(elems, state.items, i);
      Unlink(tmp, i);
      if !copyOut && tmp.dealloc {
        deallocCalls := deallocCalls + [Item(tmp.data, tmp.dealloc)];
      }
      state := after;
    }

    /**
     linked_list_search. copyOut is false for a null data_p, and was is what *data_p holds before the call, with None
     for a null pointer; equal is None for a null function, and otherwise has data_0 in it.
     */
    method Search(copyOut: bool, was: Option<D>, equal: Option<D -> bool>, rmIfFound: bool)
      returns (err: Error, out: Option<D>)
      requires Valid()
      modifies this, elems
      ensures Valid()
      ensures err == if equal.None? then InvalidHandle
                     else if old(state).items == [] then UnavailableResource else Success
      ensures err != Success ==> state == old(state) && out == was && deallocCalls == old(deallocCalls)
      ensures err == Success ==>
        var items := old(state).items; var i := FirstMatch(items, equal.value);
        && state == Step(old(state), ListModel.Search(equal.value, copyOut, rmIfFound))
        && state.items == (if i < |items| && rmIfFound then items[..i] + items[i + 1..] else items)
        && out == (if !copyOut then was else if i < |items| then Some(items[i].data) else None)
        && deallocCalls == old(deallocCalls)
           + if i < |items| && rmIfFound && !copyOut && items[i].dealloc then [items[i]] else []
    {
      out := was;
      if equal.None? {
        return InvalidHandle, out;
      }
      if tail == null {
        return UnavailableResource, out;
      }
      if copyOut {
        out := None;
      }
      var tmp := head;
      ghost var i := 0;
      while tmp != null && !equal.value(tmp.data)
        invariant i <= |elems| && tmp == At(elems, i)
        invariant forall k :: 0 <= k < i ==> !equal.value(state.items[k].data)
        decreases |elems| - i
      {
        assert LinkedAt(elems, i);
        tmp, i := tmp.next, i + 1;
      }
      FirstMatchUnique(state.items, equal.value, i);
      SearchStep(state, equal.value, copyOut, rmIfFound);
      if tmp != null {
        if copyOut {
          out := Some(tmp.data);
        }
        if rmIfFound {
          SearchTakes(state, equal.value, copyOut, i, deallocCalls);
          TakeFound(tmp, i, copyOut, DoSearch(state, equal.value, copyOut, true));
        }
      }
      err := Success;
    }
  }
}
