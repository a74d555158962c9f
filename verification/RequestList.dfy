/** One of the pending lists of ril.cpp, linked through p_next. */
module RequestList {
  import opened RequestModel

  class RequestInfo {
    var next: RequestInfo?
    var wasAckSent: int
    const socket: nat

    /** calloc, and the socket. */
    constructor (socket: nat)
      ensures this.socket == socket && wasAckSent == 0 && next == null
    {
      this.socket, next, wasAckSent := socket, null, 0;
    }
  }

  /** The choice of a hook, which both functions make anew from the socket. */
  method ChooseHook(socket: nat, simCount: nat) returns (k: nat)
    requires 1 <= simCount <= MAX_SIMS
    ensures k == (if socket < simCount then socket else 0) == Hook(socket, simCount)
  {
    k := 0;
    if simCount >= 2 {
      if socket == 1 {
        k := 1;
      } else if simCount >= 3 && socket == 2 {
        k := 2;
      } else if simCount >= 4 && socket == 3 {
        k := 3;
      }
    }
  }

  ghost function At(items: seq<RequestInfo>, i: nat): RequestInfo? {
    if i < |items| then items[i] else null
  }

  ghost predicate NextAt(items: seq<RequestInfo>, i: nat)
    requires i < |items|
    reads items`next
  {
    items[i].next == At(items, i + 1)
  }

  class PendingList {
    var head: RequestInfo?
    ghost var items: seq<RequestInfo>

    constructor ()
      ensures Valid() && items == []
    {
      head, items := null, [];
    }

    ghost predicate Valid()
      reads this, items`next
    {
      && head == At(items, 0)
      && (forall i, j :: 0 <= i < j < |items| ==> items[i] != items[j])
      && forall i :: 0 <= i < |items| ==> NextAt(items, i)
    }

    /** addRequestToList for a supported request, under the mutex. */
    method Push(pRI: RequestInfo)
      requires Valid() && pRI !in items
      modifies this, pRI`next
      ensures Valid() && items == [pRI] + old(items)
    {
      ghost var was, es := items, [pRI] + items;
      pRI.next := head;
      head := pRI;
      items := es;
      forall i | 0 <= i < |es| ensures NextAt(es, i) {
        assert i > 0 ==> es[i] == was[i - 1] && old(NextAt(was, i - 1));
      }
    }

    /** *ppCur = (*ppCur)->p_next, where ppCur is the link in front of the request at position i. */
    method Unlink(prev: RequestInfo?, cur: RequestInfo, ghost i: nat)
      requires Valid() && i < |items| && cur == items[i] && prev == if i == 0 then null else items[i - 1]
      modifies this, items`next
      ensures Valid() && items == old(items)[..i] + old(items)[i + 1..]
    {
      ghost var was, es := items, items[..i] + items[i + 1..];
      assert NextAt(was, i);
      if prev == null {
        head := cur.next;
      } else {
        prev.next := cur.next;
      }
      items := es;
      forall k | 0 <= k < |es| ensures NextAt(es, k) {
        assert old(NextAt(was, if k < i then k else k + 1));
      }
    }

    /** checkAndDequeueRequestInfoIfAck on the list of the request. */
    method CheckAndDequeueIfAck(pRI: RequestInfo, isAck: bool) returns (ret: int)
      requires Valid()
      modifies this, items`next, pRI`wasAckSent
      ensures Valid() && ret == if pRI in old(items) then 1 else 0
      ensures items == if ret == 1 && !isAck then Removed(old(items), pRI) else old(items)
      ensures pRI.wasAckSent == if ret == 1 && isAck then 1 else old(pRI.wasAckSent)
    {
      ret := 0;
      var prev: RequestInfo? := null;
      var cur := head;
      ghost var i := 0;
      while cur != null && pRI != cur
        invariant i <= |items| && cur == At(items, i) && prev == if i == 0 then null else items[i - 1]
        invariant forall k :: 0 <= k < i ==> items[k] != pRI
        decreases |items| - i
      {
        assert NextAt(items, i);
        prev, cur, i := cur, cur.next, i + 1;
      }
      if cur != null {
        ret := 1;
        if isAck {
          if pRI.wasAckSent != 1 {
            pRI.wasAckSent := 1;
          }
        } else {
          RemovedAt(items, pRI, i);
          Unlink(prev, cur, i);
        }
      }
    }
  }
}
