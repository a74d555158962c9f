/** The order of deadlines in the timer list, as plain sequences of microseconds. */
module RilSchedule {
  ghost predicate Sorted(ts: seq<int>) {
    forall i, j :: 0 <= i < j < |ts| ==> ts[i] <= ts[j]
  }

  /** How many deadlines at the front are strictly before the bound. */
  function Leading(ts: seq<int>, bound: int): (n: nat)
    ensures n <= |ts|
    ensures forall i :: 0 <= i < n ==> ts[i] < bound
    ensures n < |ts| ==> bound <= ts[n]
  {
    if ts == [] || bound <= ts[0] then 0 else 1 + Leading(ts[1..], bound)
  }

  /** Any way of finding the first deadline that is not before the bound finds this one. */
  lemma LeadingUnique(ts: seq<int>, bound: int, n: nat)
    requires n <= |ts| && (forall i :: 0 <= i < n ==> ts[i] < bound) && (n < |ts| ==> bound <= ts[n])
    ensures Leading(ts, bound) == n
  {
  }

  /** In a sorted list nothing behind the leading deadlines is before the bound. */
  lemma LeadingSplits(ts: seq<int>, bound: int)
    requires Sorted(ts)
    ensures forall i :: Leading(ts, bound) <= i < |ts| ==> bound <= ts[i]
    ensures Sorted(ts[Leading(ts, bound)..])
  {
  }

  function Insert(ts: seq<int>, t: int): seq<int> {
    ts[..Leading(ts, t)] + [t] + ts[Leading(ts, t)..]
  }

  lemma InsertKeepsSorted(ts: seq<int>, t: int)
    requires Sorted(ts)
    ensures Sorted(Insert(ts, t))
  {
    LeadingSplits(ts, t);
  }
}
