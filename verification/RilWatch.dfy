/**
 The watch table of ril_event.cpp: the watched events, the set of descriptors given to select, and
 the bound given to select.
 */
module RilWatch {
  import opened RilList

  const MAX_FD_EVENTS: int := 8

  /** The first free slot, or the length of the table. */
  function FirstFree(slots: seq<Event?>): (p: nat)
    ensures p <= |slots| && (p < |slots| ==> slots[p] == null)
    ensures forall i :: 0 <= i < p ==> slots[i] != null
  {
    if slots == [] || slots[0] == null then 0 else 1 + FirstFree(slots[1..])
  }

  lemma FirstFreeUnique(slots: seq<Event?>, p: nat)
    requires p <= |slots| && (p < |slots| ==> slots[p] == null)
    requires forall i :: 0 <= i < p ==> slots[i] != null
    ensures FirstFree(slots) == p
  {
  }

  /** fds are the descriptors of the slots, -1 for a free slot; readFds is exactly the set of them. */
  ghost predicate ReadSetExact(readFds: set<int>, fds: seq<int>) {
    forall fd :: fd in readFds <==> 0 <= fd && fd in fds
  }

  /** One more than the largest watched descriptor; nothing watched, 0 or 1. */
  ghost predicate Bounds(nfds: int, readFds: set<int>) {
    && (forall fd :: fd in readFds ==> 0 <= fd < nfds)
    && (if readFds == {} then 0 <= nfds <= 1 else nfds - 1 in readFds)
  }

  lemma BoundsGrow(nfds: int, readFds: set<int>, fd: int)
    requires Bounds(nfds, readFds) && 0 <= fd
    ensures Bounds(if fd >= nfds then fd + 1 else nfds, readFds + {fd})
  {
    if readFds == {} && fd < nfds {
      assert fd == 0;
    }
  }

  lemma BoundsShrink(nfds: int, readFds: set<int>, fd: int)
    requires Bounds(nfds, readFds) && fd in readFds && fd + 1 != nfds
    ensures Bounds(nfds, readFds - {fd})
  {
    assert nfds - 1 in readFds - {fd};
  }

  /** No descriptor is watched twice. */
  ghost predicate NoneTwice(fds: seq<int>) {
    forall i, j :: 0 <= i < j < |fds| && 0 <= fds[i] ==> fds[i] != fds[j]
  }

  lemma SlotFilled(readFds: set<int>, fds: seq<int>, i: nat, fd: int)
    requires ReadSetExact(readFds, fds) && NoneTwice(fds) && i < |fds| && fds[i] == -1 && 0 <= fd && fd !in readFds
    ensures ReadSetExact(readFds + {fd}, fds[i := fd]) && NoneTwice(fds[i := fd])
  {
    forall f | 0 <= f ensures f in fds[i := fd] <==> f == fd || f in fds {
      assert fds[i := fd][i] == fd;
      if f in fds {
        var k :| 0 <= k < |fds| && fds[k] == f;
        assert fds[i := fd][k] == f;
      }
    }
  }

  lemma SlotCleared(readFds: set<int>, fds: seq<int>, i: nat)
    requires ReadSetExact(readFds, fds) && NoneTwice(fds) && i < |fds| && 0 <= fds[i]
    ensures ReadSetExact(readFds - {fds[i]}, fds[i := -1]) && NoneTwice(fds[i := -1])
  {
    forall f | 0 <= f ensures f in fds[i := -1] <==> f != fds[i] && f in fds {
      if f in fds && f != fds[i] {
        var k :| 0 <= k < |fds| && fds[k] == f;
        assert fds[i := -1][k] == f;
      }
    }
  }

  /** The events in the chosen slots, in the order of the slots. */
  function Picked(slots: seq<Event?>, picks: set<int>): (r: seq<Event>)
    ensures forall e :: e in r ==> e in slots
  {
    if slots == [] then []
    else
      var n := |slots| - 1;
      Picked(slots[..n], picks) + if n in picks && slots[n] != null then [slots[n]] else []
  }

  lemma {:induction false} PickedExact(slots: seq<Event?>, picks: set<int>, e: Event)
    ensures e in Picked(slots, picks) <==> exists i :: 0 <= i < |slots| && i in picks && slots[i] == e
  {
    if slots != [] {
      var n := |slots| - 1;
      PickedExact(slots[..n], picks, e);
      if i :| 0 <= i < |slots| && i in picks && slots[i] == e {
        assert i < n ==> slots[..n][i] == e;
      }
    }
  }

  /** The chosen events stand in the order of their slots. */
  lemma {:induction false} PickedInOrder(slots: seq<Event?>, picks: set<int>, i: nat, j: nat)
    requires i < j < |slots| && i in picks && j in picks && slots[i] != null && slots[j] != null
    ensures var p := Picked(slots, picks);
      exists a, b :: 0 <= a < b < |p| && p[a] == slots[i] && p[b] == slots[j]
  {
    var n := |slots| - 1;
    var before := Picked(slots[..n], picks);
    if j < n {
      PickedInOrder(slots[..n], picks, i, j);
      var a, b :| 0 <= a < b < |before| && before[a] == slots[i] && before[b] == slots[j];
      assert Picked(slots, picks)[a] == slots[i] && Picked(slots, picks)[b] == slots[j];
    } else {
      PickedExact(slots[..n], picks, slots[i]);
      assert slots[..n][i] == slots[i];
      var a :| 0 <= a < |before| && before[a] == slots[i];
      assert Picked(slots, picks)[a] == slots[i] && Picked(slots, picks)[|before|] == slots[j];
    }
  }

  lemma PickedNext(slots: seq<Event?>, picks: set<int>, i: nat)
    requires i < |slots|
    ensures Picked(slots[..i + 1], picks)
         == Picked(slots[..i], picks) + if i in picks && slots[i] != null then [slots[i]] else []
  {
    assert slots[..i + 1][..i] == slots[..i];
  }

  lemma {:induction false} PickedUpTo(slots: seq<Event?>, picks: set<int>, i: nat)
    requires i <= |slots| && forall k :: i <= k < |slots| ==> k !in picks
    ensures Picked(slots, picks) == Picked(slots[..i], picks)
  {
    if i < |slots| {
      var n := |slots| - 1;
      PickedUpTo(slots[..n], picks, i);
      assert slots[..n][..i] == slots[..i];
    } else {
      assert slots[..i] == slots;
    }
  }

  /** The first i slots after those that are spent have been cleared. */
  function Swept(slots: seq<Event?>, spent: set<int>, i: nat): (r: seq<Event?>)
    ensures |r| == |slots| && forall k :: 0 <= k < |r| ==> r[k] == if k < i && k in spent then null else slots[k]
  {
    seq(|slots|, k requires 0 <= k < |slots| => if k < i && k in spent then null else slots[k])
  }

  lemma SweptNext(slots: seq<Event?>, spent: set<int>, i: nat)
    requires i < |slots|
    ensures Swept(slots, spent, i + 1)
         == if i in spent then Swept(slots, spent, i)[i := null] else Swept(slots, spent, i)
  {
  }

  lemma SweptUpTo(slots: seq<Event?>, spent: set<int>, i: nat)
    requires forall k :: i <= k < |slots| ==> k !in spent
    ensures Swept(slots, spent, i) == Swept(slots, spent, |slots|)
  {
  }

  /** seen are the reported descriptors found below slot i, left the number of those still to be found. */
  ghost predicate Counted(rfds: set<int>, left: nat, fds: seq<int>, i: nat, seen: set<int>) {
    && seen <= rfds && |seen| + left == |rfds|
    && forall k :: i <= k < |fds| && 0 <= fds[k] ==> fds[k] !in seen
  }

  lemma CountedHit(rfds: set<int>, left: nat, fds: seq<int>, i: nat, seen: set<int>)
    requires Counted(rfds, left, fds, i, seen) && NoneTwice(fds) && i < |fds|
    requires 0 <= fds[i] && fds[i] in rfds && 0 < left
    ensures Counted(rfds, left - 1, fds, i + 1, seen + {fds[i]})
  {
  }

  lemma CountedAll(rfds: set<int>, left: nat, fds: seq<int>, i: nat, seen: set<int>)
    requires Counted(rfds, left, fds, i, seen) && (left == 0 || |fds| <= i)
    ensures forall k :: i <= k < |fds| && 0 <= fds[k] ==> fds[k] !in rfds
  {
    if left == 0 {
      assert rfds == seen + (rfds - seen);
    }
  }

  /** How many reported descriptors are still to be found when the slots below i have been visited. */
  function Left(rfds: set<int>, fds: seq<int>, i: nat): int
    requires i <= |fds|
  {
    if i == 0 then |rfds| else Left(rfds, fds, i - 1) - if 0 <= fds[i - 1] && fds[i - 1] in rfds then 1 else 0
  }

  lemma {:induction false} LeftCounts(rfds: set<int>, fds: seq<int>, i: nat) returns (seen: set<int>)
    requires i <= |fds| && NoneTwice(fds)
    ensures 0 <= Left(rfds, fds, i) && Counted(rfds, Left(rfds, fds, i), fds, i, seen)
    decreases i
  {
    if i == 0 {
      seen := {};
    } else {
      seen := LeftCounts(rfds, fds, i - 1);
      if 0 <= fds[i - 1] && fds[i - 1] in rfds {
        assert seen + {fds[i - 1]} <= rfds && |seen + {fds[i - 1]}| == |seen| + 1;
        SubsetSize(seen + {fds[i - 1]}, rfds);
        CountedHit(rfds, Left(rfds, fds, i - 1), fds, i - 1, seen);
        seen := seen + {fds[i - 1]};
      }
    }
  }

  lemma SubsetSize(a: set<int>, b: set<int>)
    requires a <= b
    ensures |a| <= |b|
  {
    assert b == a + (b - a);
  }

  class WatchTable {
    const slots: array<Event?>
    var readFds: set<int>
    var nfds: int
    ghost var fds: seq<int>

    constructor ()
      ensures Valid() && fresh(slots) && readFds == {} && nfds == 0
      ensures forall i :: 0 <= i < MAX_FD_EVENTS ==> slots[i] == null
    {
      slots := new Event?[MAX_FD_EVENTS](_ => null);
      readFds, nfds, fds := {}, 0, seq(MAX_FD_EVENTS, _ => -1);
    }

    /** Every stored event knows its slot. */
    ghost predicate Indexed()
      reads this`fds, slots, slots[..]`index, slots[..]`fd
    {
      && slots.Length == |fds| == MAX_FD_EVENTS
      && forall i :: 0 <= i < |fds| ==>
        if slots[i] == null then fds[i] == -1 else slots[i].index == i && slots[i].fd == fds[i] && 0 <= fds[i]
    }

    ghost predicate Valid()
      reads this, slots, slots[..]`index, slots[..]`fd
    {
      Indexed() && NoneTwice(fds) && ReadSetExact(readFds, fds) && Bounds(nfds, readFds)
    }

    /** The slots whose descriptor select reported. */
    ghost function Ready(rfds: set<int>): set<int>
      reads slots, slots[..]`fd
    {
      set i | 0 <= i < slots.Length && slots[i] != null && slots[i].fd in rfds
    }

    /** Of those, the slots whose event is watched only once. */
    ghost function Spent(rfds: set<int>): set<int>
      reads slots, slots[..]`fd, slots[..]`persist
    {
      set i | i in Ready(rfds) && !slots[i].persist
    }

    /** ril_event_add: a full table is left as it is. */
    method Add(ev: Event)
      requires Valid() && 0 <= ev.fd && ev.fd !in readFds
      modifies this, slots, ev`index
      ensures Valid()
      ensures var p := FirstFree(old(slots[..]));
        if p == MAX_FD_EVENTS then slots[..] == old(slots[..]) && ev.index == old(ev.index)
                                   && readFds == old(readFds) && nfds == old(nfds)
        else slots[..] == old(slots[..])[p := ev] && ev.index == p && readFds == old(readFds) + {ev.fd}
    {
      ghost var was := slots[..];
      for i := 0 to MAX_FD_EVENTS
        invariant slots[..] == was && forall k :: 0 <= k < i ==> was[k] != null
        invariant unchanged(this) && ev.index == old(ev.index)
      {
        if slots[i] == null {
          FirstFreeUnique(was, i);
          Store(ev, i);
          return;
        }
      }
      FirstFreeUnique(was, MAX_FD_EVENTS);
    }

    /** The branch of ril_event_add that found slot i free. */
    method Store(ev: Event, i: nat)
      requires Valid() && 0 <= ev.fd && ev.fd !in readFds && i < MAX_FD_EVENTS && slots[i] == null
      modifies this, slots, ev`index
      ensures Valid() && slots[..] == old(slots[..])[i := ev] && ev.index == i && readFds == old(readFds) + {ev.fd}
    {
      assert forall k :: 0 <= k < |fds| && slots[k] == ev ==> ev.fd in fds;
      SlotFilled(readFds, fds, i, ev.fd);
      BoundsGrow(nfds, readFds, ev.fd);
      slots[i] := ev;
      ev.index := i;
      fds := fds[i := ev.fd];
      readFds := readFds + {ev.fd};
      if ev.fd >= nfds {
        nfds := ev.fd + 1;
      }
    }

    /** The loop of removeWatch: the largest watched descriptor, or 0. */
    method Largest() returns (n: int)
      requires Indexed() && ReadSetExact(readFds, fds)
      ensures Bounds(n + 1, readFds)
    {
      n := 0;
      for i := 0 to MAX_FD_EVENTS
        invariant 0 <= n && forall k :: 0 <= k < i ==> fds[k] <= n
        invariant n == 0 || n in readFds
      {
        var rev := slots[i];
        if rev != null && rev.fd > n {
          n := rev.fd;
        }
      }
      assert forall fd :: fd in readFds ==> 0 <= fd && fd in fds;
      if fd :| fd in readFds {
        assert 0 <= fd <= n;
      }
    }

    /** removeWatch, up to the test of the bound. */
    method ClearSlot(ev: Event, index: nat)
      requires Indexed() && index < MAX_FD_EVENTS && slots[index] == ev
      modifies this`readFds, this`fds, slots, ev`index
      ensures Indexed() && slots[..] == old(slots[..])[index := null] && ev.index == -1
      ensures readFds == old(readFds) - {ev.fd} && fds == old(fds)[index := -1]
    {
      assert forall k :: 0 <= k < |fds| && slots[k] == ev ==> k == index;
      slots[index] := null;
      ev.index := -1;
      readFds := readFds - {ev.fd};
      fds := fds[index := -1];
    }

    /** removeWatch */
    method RemoveWatch(ev: Event, index: nat)
      requires Valid() && index < MAX_FD_EVENTS && slots[index] == ev
      modifies this, slots, ev`index
      ensures Valid() && slots[..] == old(slots[..])[index := null] && ev.index == -1
      ensures readFds == old(readFds) - {ev.fd}
    {
      assert fds[index] == ev.fd && ev.fd in fds;
      SlotCleared(readFds, fds, index);
      ClearSlot(ev, index);
      if ev.fd + 1 == nfds {
        var n := Largest();
        nfds := n + 1;
      } else {
        BoundsShrink(nfds, old(readFds), ev.fd);
      }
    }

    /** ril_event_del: an event that is not watched has no slot, and is left alone. */
    method Del(ev: Event)
      requires Valid() && (0 <= ev.index < MAX_FD_EVENTS ==> slots[ev.index] == ev)
      modifies this, slots, ev`index
      ensures Valid() && ev !in slots[..]
      ensures if ev in old(slots[..])
              then
                && ev.index == -1 && readFds == old(readFds) - {ev.fd}
                && slots[..] == old(slots[..])[old(ev.index) := null]
              else
                && ev.index == old(ev.index) && readFds == old(readFds) && nfds == old(nfds)
                && slots[..] == old(slots[..])
    {
      if ev.index < 0 || ev.index >= MAX_FD_EVENTS {
        return;
      }
      assert ev in slots[..];
      RemoveWatch(ev, ev.index);
      assert forall k :: 0 <= k < slots.Length && slots[k] == ev ==> slots[k].index == k;
    }
  }
}
