/** The classes of LocApiBase.cpp and LocAdapterBase.h, as far as the adapter table and the masks go. */
module AdapterTable {
  import opened EngineApi

  class Adapter {
    var mEvtMask: Mask
    // how often handleEngineUpEvent has been called
    var engineUps: nat

    constructor (mask: Mask)
      ensures mEvtMask == mask && engineUps == 0
    {
      mEvtMask, engineUps := mask, 0;
    }

    method HandleEngineUpEvent()
      modifies this`engineUps
      ensures engineUps == old(engineUps) + 1
    {
      engineUps := engineUps + 1;
    }
  }

  lemma LastTakesPlace(items: seq<Adapter>, j: nat)
    requires j < |items| && forall i, k :: 0 <= i < k < |items| ==> items[i] != items[k]
    ensures var n := |items| - 1;
      forall a :: a in items[j := items[n]][..n] <==> a in items && a != items[j]
  {
    var n := |items| - 1;
    var left := items[j := items[n]][..n];
    forall a | a in items && a != items[j] ensures a in left {
      var i :| 0 <= i < |items| && items[i] == a;
      assert left[if i == n then j else i] == a;
    }
  }

  class LocApi {
    const mLocAdapters: array<Adapter?>
    const mExcludedMask: Mask
    var queue: seq<Msg>
    var calls: seq<Call>
    ghost var items: seq<Adapter>

    constructor (excludedMask: Mask)
      ensures Valid() && View() == Init(excludedMask) && fresh(mLocAdapters)
    {
      mLocAdapters := new Adapter?[MAX_ADAPTERS](_ => null);
      mExcludedMask, queue, calls, items := excludedMask, [], [], [];
    }

    /** The adapters are a prefix of the array without holes and without duplicates. */
    ghost predicate Valid()
      reads this`items, mLocAdapters
    {
      && mLocAdapters.Length == MAX_ADAPTERS && |items| <= MAX_ADAPTERS
      && (forall i :: 0 <= i < |items| ==> mLocAdapters[i] == items[i])
      && (forall i :: |items| <= i < MAX_ADAPTERS ==> mLocAdapters[i] == null)
      && forall i, j :: 0 <= i < j < |items| ==> items[i] != items[j]
    }

    ghost function Entries(): (es: seq<Entry<Adapter>>)
      reads this, items
      ensures |es| == |items| && forall i :: 0 <= i < |es| ==> es[i] == Entry(items[i], items[i].mEvtMask)
    {
      var xs := items;
      seq(|xs|, i requires 0 <= i < |xs| reads xs => Entry(xs[i], xs[i].mEvtMask))
    }

    ghost function View(): Api<Adapter>
      reads this, items
    {
      Api(mExcludedMask, Entries(), queue, calls)
    }

    /** addAdapter */
    method AddAdapter(adapter: Adapter)
      requires Valid()
      modifies this, mLocAdapters
      ensures Valid() && View() == EngineApi.AddAdapter(old(View()), adapter, adapter.mEvtMask)
      ensures calls == old(calls)
      ensures if adapter in old(items) || |old(items)| == MAX_ADAPTERS
              then items == old(items) && queue == old(queue)
              else items == old(items) + [adapter] && queue == old(queue) + [LocOpenMsg]
    {
      ghost var before := View();
      var i := 0;
      while i < MAX_ADAPTERS && mLocAdapters[i] != adapter
        invariant i <= |items|
        invariant forall k :: 0 <= k < i ==> items[k] != adapter
      {
        if mLocAdapters[i] == null {
          IndexOfUnique(before.entries, adapter, i);
          mLocAdapters[i] := adapter;
          items := items + [adapter];
          queue := queue + [LocOpenMsg];
          assert Entries() == before.entries + [Entry(adapter, adapter.mEvtMask)];
          return;
        }
        i := i + 1;
      }
      IndexOfUnique(before.entries, adapter, i);
    }

    /** removeAdapter for the slot that holds the adapter: the last adapter takes its place. */
    method RemoveAt(j: nat) returns (i: nat)
      requires Valid() && j < |items|
      modifies this`items, mLocAdapters
      ensures Valid() && Entries() == SwapOut(old(Entries()), j) && i == |items| == |old(items)| - 1
      ensures items == old(items)[j := old(items)[i]][..i]
    {
      ghost var before := Entries();
      mLocAdapters[j] := null;
      i := j + 1;
      while i < MAX_ADAPTERS && mLocAdapters[i] != null
        invariant j < i <= |items|
      {
        i := i + 1;
      }
      i := i - 1;
      mLocAdapters[j] := mLocAdapters[i];
      mLocAdapters[i] := null;
      items := items[j := items[i]][..i];
      assert forall k :: 0 <= k < i ==> Entries()[k] == if k == j then before[i] else before[k];
    }

    /** What removeAdapter does when it has found the adapter. */
    method TakeAway(j: nat)
      requires Valid() && j < |items|
      modifies this, mLocAdapters
      ensures Valid() && View() == EngineApi.RemoveAdapter(old(View()), old(items)[j])
      ensures forall a :: a in items <==> a in old(items) && a != old(items)[j]
      ensures |items| == |old(items)| - 1
      ensures queue == if items == [] then old(queue) else old(queue) + [LocOpenMsg]
      ensures calls == if items == [] then old(calls) + [Close] else old(calls)
    {
      IndexOfUnique(Entries(), items[j], j);
      LastTakesPlace(items, j);
      var i := RemoveAt(j);
      if 0 == i {
        calls := calls + [Close];
      } else {
        queue := queue + [LocOpenMsg];
      }
    }

    /** removeAdapter */
    method RemoveAdapter(adapter: Adapter)
      requires Valid()
      modifies this, mLocAdapters
      ensures Valid() && View() == EngineApi.RemoveAdapter(old(View()), adapter)
      ensures adapter !in items && forall a :: a in old(items) && a != adapter ==> a in items
      ensures adapter !in old(items) ==> items == old(items) && queue == old(queue) && calls == old(calls)
      ensures adapter in old(items) ==>
        && |items| == |old(items)| - 1
        && queue == (if items == [] then old(queue) else old(queue) + [LocOpenMsg])
        && calls == (if items == [] then old(calls) + [Close] else old(calls))
    {
      ghost var before := View();
      var i := 0;
      while i < MAX_ADAPTERS && mLocAdapters[i] != null
        invariant i <= |items| && Valid() && View() == before
        invariant forall k :: 0 <= k < i ==> items[k] != adapter
      {
        if mLocAdapters[i] == adapter {
          TakeAway(i);
          return;
        }
        i := i + 1;
      }
      IndexOfUnique(before.entries, adapter, i);
    }

    lemma WantedBySome()
      requires Valid()
      ensures forall e :: e in EvtMask(View()) <==> e !in mExcludedMask && exists a :: a in items && e in a.mEvtMask
    {
      forall e ensures e in EvtMask(View()) <==> e !in mExcludedMask && exists a :: a in items && e in a.mEvtMask {
        MaskExact(View(), e);
        if i :| 0 <= i < |items| && e in items[i].mEvtMask {
          assert Entries()[i] in Entries();
        }
        if x :| x in Entries() && e in x.mask {
          assert x.adapter in items;
        }
      }
    }

    /** getEvtMask */
    method GetEvtMask() returns (mask: Mask)
      requires Valid()
      ensures mask == EvtMask(View())
      ensures forall e :: e in mask <==> e !in mExcludedMask && exists a :: a in items && e in a.mEvtMask
    {
      mask := {};
      var i := 0;
      while i < MAX_ADAPTERS && mLocAdapters[i] != null
        invariant i <= |items| && mask == Union(Entries()[..i])
      {
        assert Entries()[..i + 1][..i] == Entries()[..i];
        mask := mask + mLocAdapters[i].mEvtMask;
        i := i + 1;
      }
      assert Entries()[..i] == Entries();
      mask := mask - mExcludedMask;
      WantedBySome();
    }

    /** LocAdapterBase::updateEvtMask of one adapter, with the updateEvtMask of the engine it calls. */
    method UpdateEvtMask(adapter: Adapter, event: Mask, isEnabled: bool)
      requires Valid()
      modifies adapter, this`queue
      ensures Valid()
      ensures adapter.mEvtMask
           == if isEnabled then old(adapter.mEvtMask) + event else old(adapter.mEvtMask) - event
      ensures View() == SetMask(old(View()), adapter, adapter.mEvtMask)
      ensures queue == old(queue) + [LocOpenMsg]
    {
      ghost var before := View();
      adapter.mEvtMask := if isEnabled then adapter.mEvtMask + event else adapter.mEvtMask - event;
      queue := queue + [LocOpenMsg];
      ghost var j := IndexOf(before.entries, adapter);
      assert forall k :: 0 <= k < |items| ==> (items[k] == adapter <==> k == j);
      assert Entries()
          == if j == |items| then before.entries else before.entries[j := Entry(adapter, adapter.mEvtMask)];
    }

    /** handleEngineUpEvent: an Ssr message is sent, and every adapter of the table is told once. */
    method HandleEngineUp()
      requires Valid()
      modifies this`queue, items`engineUps
      ensures Valid() && View() == Send(old(View()), LocSsrMsg) && queue == old(queue) + [LocSsrMsg]
      ensures forall a :: a in items ==> a.engineUps == old(a.engineUps) + 1
    {
      ghost var before := Entries();
      queue := queue + [LocSsrMsg];
      var i := 0;
      while i < MAX_ADAPTERS && mLocAdapters[i] != null
        invariant i <= |items| && queue == old(queue) + [LocSsrMsg]
        invariant forall k :: 0 <= k < |items| ==>
          items[k].engineUps == old(items[k].engineUps) + if k < i then 1 else 0
      {
        mLocAdapters[i].HandleEngineUpEvent();
        i := i + 1;
      }
      assert Entries() == before;
    }

    /** proc() of the next message on the message thread. */
    method ProcNext()
      requires Valid() && queue != []
      modifies this`queue, this`calls
      ensures Valid() && View() == Proc(old(View())) && queue == old(queue)[1..]
      ensures exists mask: Mask {:trigger Open(mask)} ::
        && calls == old(calls) + (if old(queue)[0].LocSsrMsg? then [Close, Open(mask)] else [Open(mask)])
        && forall e :: e in mask <==> e !in mExcludedMask && exists a :: a in items && e in a.mEvtMask
    {
      ghost var before := View();
      var mask := GetEvtMask();
      if queue[0].LocSsrMsg? {
        calls := calls + [Close];
      }
      calls := calls + [Open(mask)];
      assert calls == old(calls) + if queue[0].LocSsrMsg? then [Close, Open(mask)] else [Open(mask)];
      queue := queue[1..];
      assert Entries() == before.entries;
    }
  }
}
