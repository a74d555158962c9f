/** What the operations of linked_list.c do to the list as a sequence, from head to tail. */
module ListModel {
  import opened Common

  /** An element: its data, and whether it was added with a dealloc function. */
  datatype Item<D> = Item(data: D, dealloc: bool)

  datatype Error = Success | InvalidParameter | InvalidHandle | UnavailableResource

  /** The list, and where the data of the elements that left it went. */
  datatype State<D(==)> = State(
    items: seq<Item<D>>,
    added: multiset<Item<D>>,
    handedOut: multiset<Item<D>>,
    // given to its dealloc function
    dealloced: multiset<Item<D>>,
    // given to nobody
    abandoned: multiset<Item<D>>)

  function Init<D(==)>(): State<D> {
    State([], multiset{}, multiset{}, multiset{}, multiset{})
  }

  function Datas<D>(items: seq<Item<D>>): (ds: seq<D>)
    ensures |ds| == |items| && forall i :: 0 <= i < |items| ==> ds[i] == items[i].data
  {
    seq(|items|, i requires 0 <= i < |items| => items[i].data)
  }

  /** The elements whose data is given to dealloc functions when they are freed one by one from the head. */
  function Freed<D>(items: seq<Item<D>>): seq<Item<D>> {
    if items == [] then []
    else (if items[0].dealloc then [items[0]] else []) + Freed(items[1..])
  }

  /** The first element from the head whose data is equal, or the length of the list. */
  function FirstMatch<D>(items: seq<Item<D>>, equal: D -> bool): (i: nat)
    ensures i <= |items| && (i < |items| ==> equal(items[i].data))
    ensures forall k :: 0 <= k < i ==> !equal(items[k].data)
  {
    if items == [] || equal(items[0].data) then 0 else 1 + FirstMatch(items[1..], equal)
  }

  lemma FirstMatchUnique<D>(items: seq<Item<D>>, equal: D -> bool, i: nat)
    requires i <= |items| && (i < |items| ==> equal(items[i].data))
    requires forall k :: 0 <= k < i ==> !equal(items[k].data)
    ensures FirstMatch(items, equal) == i
  {
  }

  function Unlinked<D>(items: seq<Item<D>>, i: nat): seq<Item<D>>
    requires i < |items|
  {
    items[..i] + items[i + 1..]
  }

  // ---------- The operations ----------

  datatype Action<!D> =
    | Add(data: D, dealloc: bool)
    | Remove
    | Flush
    | Search(equal: D -> bool, copyOut: bool, rmIfFound: bool)

  /** The data of an element that is freed without being handed out. */
  function Free<D(==)>(s: State<D>, item: Item<D>): State<D> {
    if item.dealloc then s.(dealloced := s.dealloced + multiset{item})
    else s.(abandoned := s.abandoned + multiset{item})
  }

  function DoFlush<D(==)>(s: State<D>): State<D>
    decreases |s.items|
  {
    if s.items == [] then s else DoFlush(Free(s, s.items[0]).(items := s.items[1..]))
  }

  function DoSearch<D(==)>(s: State<D>, equal: D -> bool, copyOut: bool, rmIfFound: bool): State<D> {
    var i := FirstMatch(s.items, equal);
    if i == |s.items| || !rmIfFound then s
    else
      var s' := s.(items := Unlinked(s.items, i));
      if copyOut then s'.(handedOut := s.handedOut + multiset{s.items[i]}) else Free(s', s.items[i])
  }

  function Step<D(==)>(s: State<D>, a: Action<D>): State<D> {
    match a
    case Add(data, dealloc) =>
      var item := Item(data, dealloc);
      s.(items := [item] + s.items, added := s.added + multiset{item})
    case Remove =>
      if s.items == [] then s
      else
        var n := |s.items| - 1;
        s.(items := s.items[..n], handedOut := s.handedOut + multiset{s.items[n]})
    case Flush => DoFlush(s)
    case Search(equal, copyOut, rmIfFound) => DoSearch(s, equal, copyOut, rmIfFound)
  }

  function Exec<D(==)>(s: State<D>, run: seq<Action<D>>): State<D>
    decreases run
  {
    if run == [] then s else Exec(Step(s, run[0]), run[1..])
  }

  // ---------- Ownership ----------

  /** Every element is in one place, and its data was deallocated or abandoned as its function asks. */
  ghost predicate Accounted<D>(s: State<D>) {
    && s.added == multiset(s.items) + s.handedOut + s.dealloced + s.abandoned
    && (forall item: Item<D> :: item in s.dealloced ==> item.dealloc)
    && (forall item: Item<D> :: item in s.abandoned ==> !item.dealloc)
  }

  lemma TakeOut<D>(items: seq<Item<D>>, i: nat)
    requires i < |items|
    ensures multiset(items) == multiset(Unlinked(items, i)) + multiset{items[i]}
  {
    assert items == items[..i] + [items[i]] + items[i + 1..];
  }

  lemma Regroup<T>(m: multiset<T>, x: T, handedOut: multiset<T>, dealloced: multiset<T>, abandoned: multiset<T>)
    ensures var all := (m + multiset{x}) + handedOut + dealloced + abandoned;
      && all == m + (handedOut + multiset{x}) + dealloced + abandoned
      && all == m + handedOut + (dealloced + multiset{x}) + abandoned
      && all == m + handedOut + dealloced + (abandoned + multiset{x})
  {
  }

  /** The element at i leaves the list, and goes one of the three ways. */
  lemma LeavingAccounts<D>(s: State<D>, i: nat)
    requires Accounted(s) && i < |s.items|
    ensures var s' := s.(items := Unlinked(s.items, i)); var item := s.items[i];
      Accounted(s'.(handedOut := s.handedOut + multiset{item})) && Accounted(Free(s', item))
  {
    TakeOut(s.items, i);
    Regroup(multiset(Unlinked(s.items, i)), s.items[i], s.handedOut, s.dealloced, s.abandoned);
  }

  lemma {:induction false} FlushAccounts<D>(s: State<D>)
    requires Accounted(s)
    ensures Accounted(DoFlush(s))
    decreases |s.items|
  {
    if s.items != [] {
      LeavingAccounts(s, 0);
      assert Unlinked(s.items, 0) == s.items[1..];
      FlushAccounts(Free(s, s.items[0]).(items := s.items[1..]));
    }
  }

  lemma {:induction false} FreedExact<D>(items: seq<Item<D>>)
    ensures forall item :: item in Freed(items) <==> item in items && item.dealloc
    decreases items
  {
    if items != [] {
      FreedExact(items[1..]);
      assert items == [items[0]] + items[1..];
    }
  }

  /** And it is deallocated in the order of the list. */
  lemma {:induction false} FreedInOrder<D>(a: seq<Item<D>>, b: seq<Item<D>>)
    ensures Freed(a + b) == Freed(a) + Freed(b)
    decreases a
  {
    if a == [] {
      assert a + b == b;
      assert [] + Freed(b) == Freed(b);
    } else {
      var rest, first := a[1..], if a[0].dealloc then [a[0]] else [];
      FreedInOrder(rest, b);
      assert (a + b)[0] == a[0] && (a + b)[1..] == rest + b;
      assert first + (Freed(rest) + Freed(b)) == (first + Freed(rest)) + Freed(b);
    }
  }

  /** A flush empties the list; it hands nothing out, and deallocates exactly what has a function for it. */
  lemma {:induction false} FlushFrees<D>(s: State<D>)
    ensures DoFlush(s).items == [] && DoFlush(s).handedOut == s.handedOut
    ensures DoFlush(s).dealloced == s.dealloced + multiset(Freed(s.items))
    decreases |s.items|
  {
    if s.items != [] {
      var first, rest := s.items[0], Freed(s.items[1..]);
      FlushFrees(Free(s, first).(items := s.items[1..]));
      assert multiset([first] + rest) == multiset{first} + multiset(rest);
      assert (s.dealloced + multiset{first}) + multiset(rest) == s.dealloced + multiset([first] + rest);
      assert [] + rest == rest;
    }
  }

  lemma AddAccounts<D>(s: State<D>, data: D, dealloc: bool)
    requires Accounted(s)
    ensures Accounted(Step(s, Add(data, dealloc)))
  {
    var items := [Item(data, dealloc)] + s.items;
    TakeOut(items, 0);
    assert Unlinked(items, 0) == s.items;
    Regroup(multiset(s.items), items[0], s.handedOut, s.dealloced, s.abandoned);
  }

  lemma SearchAccounts<D>(s: State<D>, equal: D -> bool, copyOut: bool, rmIfFound: bool)
    requires Accounted(s)
    ensures Accounted(DoSearch(s, equal, copyOut, rmIfFound))
  {
    var i := FirstMatch(s.items, equal);
    if i < |s.items| {
      LeavingAccounts(s, i);
    }
  }

  lemma RemoveAccounts<D>(s: State<D>)
    requires Accounted(s)
    ensures Accounted(Step(s, Remove))
  {
    if s.items != [] {
      var n := |s.items| - 1;
      LeavingAccounts(s, n);
      assert Unlinked(s.items, n) == s.items[..n];
    }
  }

  lemma StepAccounts<D>(s: State<D>, a: Action<D>)
    requires Accounted(s)
    ensures Accounted(Step(s, a))
  {
    match a
    case Add(data, dealloc) => AddAccounts(s, data, dealloc);
    case Remove => RemoveAccounts(s);
    case Flush => FlushAccounts(s);
    case Search(equal, copyOut, rmIfFound) => SearchAccounts(s, equal, copyOut, rmIfFound);
  }

  lemma {:induction false} ExecAccounts<D>(s: State<D>, run: seq<Action<D>>)
    requires Accounted(s)
    ensures Accounted(Exec(s, run))
    decreases run
  {
    if run != [] {
      StepAccounts(s, run[0]);
      ExecAccounts(Step(s, run[0]), run[1..]);
    }
  }

  /** The data given to the additions of a run, with the dealloc functions they were given. */
  function Given<D(==)>(run: seq<Action<D>>): multiset<Item<D>>
    decreases run
  {
    if run == [] then multiset{} else GivenBy(run[0]) + Given(run[1..])
  }

  function GivenBy<D(==)>(a: Action<D>): multiset<Item<D>> {
    if a.Add? then multiset{Item(a.data, a.dealloc)} else multiset{}
  }

  lemma {:induction false} FlushAddsNothing<D>(s: State<D>)
    ensures DoFlush(s).added == s.added
    decreases |s.items|
  {
    if s.items != [] {
      FlushAddsNothing(Free(s, s.items[0]).(items := s.items[1..]));
    }
  }

  lemma StepAdds<D>(s: State<D>, a: Action<D>)
    ensures Step(s, a).added == s.added + GivenBy(a)
  {
    if a.Flush? {
      FlushAddsNothing(s);
    }
  }

  lemma {:induction false} AddedAsGiven<D>(s: State<D>, run: seq<Action<D>>)
    ensures Exec(s, run).added == s.added + Given(run)
    decreases run
  {
    if run == [] {
      assert s.added + multiset{} == s.added;
    } else {
      StepAdds(s, run[0]);
      AddedAsGiven(Step(s, run[0]), run[1..]);
      assert (s.added + GivenBy(run[0])) + Given(run[1..]) == s.added + (GivenBy(run[0]) + Given(run[1..]));
    }
  }

  /**
   After every run each element ever added is accounted for once: it is in the list, or its data was handed to a
   caller, or given to the dealloc function it was added with, or the element was freed and had none.
   */
  lemma EveryDataOnce<D>(run: seq<Action<D>>)
    ensures var s := Exec(Init(), run);
      && Given(run) == s.added == multiset(s.items) + s.handedOut + s.dealloced + s.abandoned
      && (forall item: Item<D> :: item in s.dealloced ==> item.dealloc)
      && (forall item: Item<D> :: item in s.abandoned ==> !item.dealloc)
  {
    ExecAccounts(Init(), run);
    AddedAsGiven(Init(), run);
  }

  // ---------- First in, first out ----------

  function Reverse<D>(ds: seq<D>): (r: seq<D>)
    ensures |r| == |ds| && forall i :: 0 <= i < |ds| ==> r[i] == ds[|ds| - 1 - i]
  {
    seq(|ds|, i requires 0 <= i < |ds| => ds[|ds| - 1 - i])
  }

  /** The list as a queue, the next data to remove first. */
  function Queue<D>(items: seq<Item<D>>): seq<D> {
    Reverse(Datas(items))
  }

  /** Added data joins the queue at its end, removed data leaves it at its front. */
  lemma AddRemoveIsFifo<D>(s: State<D>, data: D, dealloc: bool)
    ensures Queue(Step(s, Add(data, dealloc)).items) == Queue(s.items) + [data]
    ensures s.items != [] ==>
      && Queue(s.items)[0] == s.items[|s.items| - 1].data
      && Queue(Step(s, Remove).items) == Queue(s.items)[1..]
  {
    var items := Step(s, Add(data, dealloc)).items;
    forall i | 0 <= i < |items| ensures Queue(items)[i] == (Queue(s.items) + [data])[i] {
    }
  }

  function AddAll<D(==)>(s: State<D>, ds: seq<D>, dealloc: bool): State<D>
    decreases ds
  {
    if ds == [] then s else AddAll(Step(s, Add(ds[0], dealloc)), ds[1..], dealloc)
  }

  /** What n calls of remove hand out. */
  function RemoveAll<D(==)>(s: State<D>, n: nat): seq<D>
    requires n <= |s.items|
    decreases n
  {
    if n == 0 then [] else [s.items[|s.items| - 1].data] + RemoveAll(Step(s, Remove), n - 1)
  }

  lemma {:induction false} AddAllQueues<D>(s: State<D>, ds: seq<D>, dealloc: bool)
    ensures Queue(AddAll(s, ds, dealloc).items) == Queue(s.items) + ds
    decreases ds
  {
    if ds != [] {
      var s' := Step(s, Add(ds[0], dealloc));
      AddRemoveIsFifo(s, ds[0], dealloc);
      AddAllQueues(s', ds[1..], dealloc);
      assert AddAll(s, ds, dealloc) == AddAll(s', ds[1..], dealloc);
      assert Queue(s.items) + ds == (Queue(s.items) + [ds[0]]) + ds[1..];
    } else {
      assert Queue(s.items) + ds == Queue(s.items);
    }
  }

  lemma {:induction false} RemoveAllTakes<D>(s: State<D>, n: nat)
    requires n <= |s.items|
    ensures RemoveAll(s, n) == Queue(s.items)[..n]
    decreases n
  {
    if n > 0 {
      AddRemoveIsFifo(s, s.items[0].data, false);
      RemoveAllTakes(Step(s, Remove), n - 1);
      var q := Queue(s.items);
      assert q[..n] == [q[0]] + q[1..][..n - 1];
    }
  }

  /** What is added to an empty list is removed in the same order. */
  lemma FirstInFirstOut<D>(ds: seq<D>, dealloc: bool)
    ensures var s := AddAll(Init(), ds, dealloc);
      |s.items| == |ds| && RemoveAll(s, |ds|) == ds
  {
    var s := AddAll(Init(), ds, dealloc);
    var empty: State<D> := Init();
    assert Queue(empty.items) == [];
    AddAllQueues(Init(), ds, dealloc);
    assert Queue(s.items) == ds && |Queue(s.items)| == |s.items|;
    RemoveAllTakes(s, |ds|);
  }
}
