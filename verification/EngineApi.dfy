/**
 The adapter table of LocApiBase.cpp as values: what the table, the message queue and the engine
 are after each operation, and what every run of operations keeps.
 */
module EngineApi {
  import opened Common

  const MAX_ADAPTERS: nat := 10

  /** An event mask as the set of the bits that are 1: or is union, and-not is difference. */
  type Mask = set<nat>

  datatype Entry<T> = Entry(adapter: T, mask: Mask)

  datatype Msg = LocOpenMsg | LocSsrMsg

  /** What was called on the engine. */
  datatype Call = Close | Open(mask: Mask)

  datatype Api<T> = Api(excluded: Mask, entries: seq<Entry<T>>, queue: seq<Msg>, calls: seq<Call>)

  function IndexOf<T(==)>(entries: seq<Entry<T>>, a: T): (i: nat)
    ensures i <= |entries| && (i < |entries| ==> entries[i].adapter == a)
    ensures forall k :: 0 <= k < i ==> entries[k].adapter != a
  {
    if entries == [] || entries[0].adapter == a then 0 else 1 + IndexOf(entries[1..], a)
  }

  lemma IndexOfUnique<T>(entries: seq<Entry<T>>, a: T, i: nat)
    requires i <= |entries| && (i < |entries| ==> entries[i].adapter == a)
    requires forall k :: 0 <= k < i ==> entries[k].adapter != a
    ensures IndexOf(entries, a) == i
  {
  }

  function Union<T>(entries: seq<Entry<T>>): Mask {
    if entries == [] then {} else Union(entries[..|entries| - 1]) + entries[|entries| - 1].mask
  }

  /** LocApiBase::getEvtMask */
  function EvtMask<T>(s: Api<T>): Mask {
    Union(s.entries) - s.excluded
  }

  function Send<T>(s: Api<T>, m: Msg): Api<T> {
    s.(queue := s.queue + [m])
  }

  /** LocApiBase::addAdapter: a known adapter, or one too many, changes nothing. */
  function AddAdapter<T(==)>(s: Api<T>, a: T, mask: Mask): Api<T> {
    if IndexOf(s.entries, a) < |s.entries| || |s.entries| >= MAX_ADAPTERS then s
    else Send(s.(entries := s.entries + [Entry(a, mask)]), LocOpenMsg)
  }

  /** The last entry takes the place of the removed one. */
  function SwapOut<T>(entries: seq<Entry<T>>, j: nat): seq<Entry<T>>
    requires j < |entries|
  {
    entries[j := entries[|entries| - 1]][..|entries| - 1]
  }

  /** LocApiBase::removeAdapter */
  function RemoveAdapter<T(==)>(s: Api<T>, a: T): Api<T> {
    var j := IndexOf(s.entries, a);
    if j == |s.entries| then s
    else
      var s' := s.(entries := SwapOut(s.entries, j));
      if s'.entries == [] then s'.(calls := s.calls + [Close]) else Send(s', LocOpenMsg)
  }

  /** LocAdapterBase::updateEvtMask, for the new mask of a. */
  function SetMask<T(==)>(s: Api<T>, a: T, mask: Mask): Api<T> {
    var j := IndexOf(s.entries, a);
    Send(if j == |s.entries| then s else s.(entries := s.entries[j := Entry(a, mask)]), LocOpenMsg)
  }

  /** LocOpenMsg::proc and LocSsrMsg::proc */
  function Proc<T>(s: Api<T>): Api<T>
    requires s.queue != []
  {
    var ssr := if s.queue[0].LocSsrMsg? then [Close] else [];
    s.(queue := s.queue[1..], calls := s.calls + ssr + [Open(EvtMask(s))])
  }

  // ---------- Runs ----------

  datatype Action<T> =
    | Add(a: T, mask: Mask)
    | Remove(a: T)
    | Update(a: T, mask: Mask)
    | EngineUp
    | ProcMsg

  function Step<T(==)>(s: Api<T>, act: Action<T>): Api<T>
    requires act.ProcMsg? ==> s.queue != []
  {
    match act
    case Add(a, mask) => AddAdapter(s, a, mask)
    case Remove(a) => RemoveAdapter(s, a)
    case Update(a, mask) => SetMask(s, a, mask)
    case EngineUp => Send(s, LocSsrMsg)
    case ProcMsg => Proc(s)
  }

  function Exec<T(==)>(s: Api<T>, run: seq<Action<T>>): Option<Api<T>>
    decreases run
  {
    if run == [] then Some(s)
    else if run[0].ProcMsg? && s.queue == [] then None
    else Exec(Step(s, run[0]), run[1..])
  }

  function Init<T>(excluded: Mask): Api<T> {
    Api(excluded, [], [], [])
  }

  ghost predicate NoneTwice<T>(entries: seq<Entry<T>>) {
    forall i, j :: 0 <= i < j < |entries| ==> entries[i].adapter != entries[j].adapter
  }

  /** With an adapter in the table, a message is waiting or the engine was last opened with the current mask. */
  ghost predicate InStep<T>(s: Api<T>) {
    s.entries != [] && s.queue == [] ==> s.calls != [] && s.calls[|s.calls| - 1] == Open(EvtMask(s))
  }

  ghost predicate Inv<T>(s: Api<T>) {
    |s.entries| <= MAX_ADAPTERS && NoneTwice(s.entries) && InStep(s)
  }

  ghost function Members<T>(entries: seq<Entry<T>>): set<T> {
    set e | e in entries :: e.adapter
  }

  lemma InMembers<T>(entries: seq<Entry<T>>, a: T)
    ensures a in Members(entries) <==> exists i :: 0 <= i < |entries| && entries[i].adapter == a
  {
  }

  lemma MembersAfterAdd<T>(entries: seq<Entry<T>>, a: T, mask: Mask)
    ensures Members(entries + [Entry(a, mask)]) == Members(entries) + {a}
  {
    assert Entry(a, mask) in entries + [Entry(a, mask)];
    forall x ensures x in Members(entries + [Entry(a, mask)]) <==> x in Members(entries) + {a} {
      if x in Members(entries) {
        var e :| e in entries && e.adapter == x;
        assert e in entries + [Entry(a, mask)];
      }
    }
  }

  lemma MembersAfterSwapOut<T>(entries: seq<Entry<T>>, j: nat)
    requires j < |entries| && NoneTwice(entries)
    ensures NoneTwice(SwapOut(entries, j)) && Members(SwapOut(entries, j)) == Members(entries) - {entries[j].adapter}
  {
    var n := |entries| - 1;
    var left := SwapOut(entries, j);
    assert forall i :: 0 <= i < n ==> left[i] == if i == j then entries[n] else entries[i];
    forall x ensures x in Members(left) <==> x in Members(entries) && x != entries[j].adapter {
      InMembers(left, x);
      InMembers(entries, x);
      if i :| 0 <= i < |entries| && entries[i].adapter == x && i != j {
        assert left[if i == n then j else i].adapter == x;
      }
    }
  }

  lemma MembersAfterSet<T>(entries: seq<Entry<T>>, j: nat, mask: Mask)
    requires j < |entries|
    ensures var entries' := entries[j := Entry(entries[j].adapter, mask)];
      Members(entries') == Members(entries) && (NoneTwice(entries) ==> NoneTwice(entries'))
  {
    var entries' := entries[j := Entry(entries[j].adapter, mask)];
    assert forall i :: 0 <= i < |entries| ==> entries'[i].adapter == entries[i].adapter;
    forall x ensures x in Members(entries') <==> x in Members(entries) {
      InMembers(entries', x);
      InMembers(entries, x);
    }
  }

  /** The table is a set: what each operation does to its members. */
  ghost function MembersAfter<T>(s: Api<T>, act: Action<T>): set<T> {
    var m := Members(s.entries);
    match act
    case Add(a, _) => if |s.entries| < MAX_ADAPTERS then m + {a} else m
    case Remove(a) => m - {a}
    case _ => m
  }

  lemma StepKeeps<T>(s: Api<T>, act: Action<T>)
    requires Inv(s) && (act.ProcMsg? ==> s.queue != [])
    ensures Inv(Step(s, act)) && Members(Step(s, act).entries) == MembersAfter(s, act)
    ensures Step(s, act).excluded == s.excluded
  {
    match act
    case Add(a, mask) =>
      InMembers(s.entries, a);
      MembersAfterAdd(s.entries, a, mask);
    case Remove(a) =>
      InMembers(s.entries, a);
      var j := IndexOf(s.entries, a);
      if j < |s.entries| {
        MembersAfterSwapOut(s.entries, j);
      }
    case Update(a, mask) =>
      var j := IndexOf(s.entries, a);
      if j < |s.entries| {
        MembersAfterSet(s.entries, j, mask);
      }
    case _ =>
  }

  lemma {:induction false} ExecKeeps<T>(s: Api<T>, run: seq<Action<T>>)
    requires Inv(s) && Exec(s, run).Some?
    ensures Inv(Exec(s, run).value)
    decreases run
  {
    if run != [] {
      StepKeeps(s, run[0]);
      ExecKeeps(Step(s, run[0]), run[1..]);
    }
  }

  // ---------- The main results ----------

  /**
   In every state of every run the table holds each adapter once and at most ten; and while it is not empty, a
   message is queued or the last thing done to the engine was to open it with the current mask.
   */
  lemma EngineInStep<T>(excluded: Mask, run: seq<Action<T>>)
    requires Exec(Init(excluded), run).Some?
    ensures var s := Exec(Init(excluded), run).value;
      && |s.entries| <= 10 && NoneTwice(s.entries)
      && (s.entries != [] && s.queue == [] ==> s.calls != [] && s.calls[|s.calls| - 1] == Open(EvtMask(s)))
  {
    ExecKeeps(Init(excluded), run);
  }

  /** In every run each operation does to the members of the table what it would do to a set. */
  lemma TableIsSet<T>(excluded: Mask, run: seq<Action<T>>, act: Action<T>)
    requires Exec(Init(excluded), run).Some?
    requires act.ProcMsg? ==> Exec(Init(excluded), run).value.queue != []
    ensures var s := Exec(Init(excluded), run).value;
      Members(Step(s, act).entries) == MembersAfter(s, act)
  {
    ExecKeeps(Init(excluded), run);
    StepKeeps(Exec(Init(excluded), run).value, act);
  }

  lemma {:induction false} UnionExact<T>(entries: seq<Entry<T>>, event: nat)
    ensures event in Union(entries) <==> exists e :: e in entries && event in e.mask
  {
    if entries != [] {
      var n := |entries| - 1;
      UnionExact(entries[..n], event);
      assert entries == entries[..n] + [entries[n]];
      assert entries[n] in entries;
    }
  }

  /** The engine is asked for an event exactly if it is not excluded and some adapter wants it. */
  lemma MaskExact<T>(s: Api<T>, event: nat)
    ensures event in EvtMask(s) <==> event !in s.excluded && exists e :: e in s.entries && event in e.mask
  {
    UnionExact(s.entries, event);
  }

  /** All that is queued is handled. */
  function Drain<T>(s: Api<T>): Api<T>
    decreases |s.queue|
  {
    if s.queue == [] then s else Drain(Proc(s))
  }

  lemma {:induction false} DrainOpens<T>(s: Api<T>)
    requires s.queue != []
    ensures Drain(s).calls != [] && Drain(s).calls[|Drain(s).calls| - 1] == Open(EvtMask(s))
    decreases |s.queue|
  {
    var s' := Proc(s);
    assert EvtMask(s') == EvtMask(s);
    if s'.queue != [] {
      DrainOpens(s');
    }
  }

  /**
   Removing the last adapter closes the engine, but it stays closed if and only if no message was queued: a
   queued one opens it again, with an empty mask.
   */
  lemma LastRemovalExactly<T>(s: Api<T>, a: T, mask: Mask)
    requires s.entries == [Entry(a, mask)]
    ensures var end := Drain(RemoveAdapter(s, a));
      && end.entries == [] && end.calls != []
      && (end.calls[|end.calls| - 1] == Close <==> s.queue == [])
      && (s.queue != [] ==> end.calls[|end.calls| - 1] == Open({}))
  {
    var s' := RemoveAdapter(s, a);
    IndexOfUnique(s.entries, a, 0);
    assert s'.entries == [] && s'.queue == s.queue && EvtMask(s') == {};
    DrainKeepsEntries(s');
    if s.queue != [] {
      DrainOpens(s');
    }
  }

  lemma {:induction false} DrainKeepsEntries<T>(s: Api<T>)
    ensures Drain(s).entries == s.entries && Drain(s).queue == []
    decreases |s.queue|
  {
    if s.queue != [] {
      DrainKeepsEntries(Proc(s));
    }
  }

  /** How often a run closes the engine: for each Ssr message handled, and when the last adapter is removed. */
  function Closings<T(==)>(s: Api<T>, run: seq<Action<T>>): nat
    decreases run
  {
    if run == [] || (run[0].ProcMsg? && s.queue == []) then 0
    else
      var ssr := run[0].ProcMsg? && s.queue[0] == LocSsrMsg;
      var last := run[0].Remove? && |s.entries| == 1 && s.entries[0].adapter == run[0].a;
      (if ssr || last then 1 else 0) + Closings(Step(s, run[0]), run[1..])
  }

  function Openings<T>(run: seq<Action<T>>): nat
    decreases run
  {
    if run == [] then 0 else (if run[0].ProcMsg? then 1 else 0) + Openings(run[1..])
  }

  function Closes(calls: seq<Call>): nat
    decreases calls
  {
    if calls == [] then 0 else Closes(calls[..|calls| - 1]) + if calls[|calls| - 1] == Close then 1 else 0
  }

  lemma ClosesMore(calls: seq<Call>, c: Call)
    ensures Closes(calls + [c]) == Closes(calls) + if c == Close then 1 else 0
  {
    assert (calls + [c])[..|calls|] == calls;
  }

  lemma ProcCloses<T>(s: Api<T>)
    requires s.queue != []
    ensures Closes(Proc(s).calls) == Closes(s.calls) + if s.queue[0] == LocSsrMsg then 1 else 0
    ensures |Proc(s).calls| == |s.calls| + if s.queue[0] == LocSsrMsg then 2 else 1
  {
    ClosesMore(s.calls, Close);
    ClosesMore(s.calls, Open(EvtMask(s)));
    ClosesMore(s.calls + [Close], Open(EvtMask(s)));
    assert s.calls + [] == s.calls;
  }

  lemma {:induction false} CallsOfRun<T>(s: Api<T>, run: seq<Action<T>>)
    requires Exec(s, run).Some?
    ensures var s' := Exec(s, run).value;
      && Closes(s'.calls) == Closes(s.calls) + Closings(s, run)
      && |s'.calls| == |s.calls| + Closings(s, run) + Openings(run)
    decreases run
  {
    if run != [] {
      if run[0].ProcMsg? {
        ProcCloses(s);
      } else if run[0].Remove? {
        IndexOfUnique(s.entries, run[0].a, IndexOf(s.entries, run[0].a));
        ClosesMore(s.calls, Close);
      }
      CallsOfRun(Step(s, run[0]), run[1..]);
    }
  }

  /**
   In every run the engine is opened once for each message handled, and closed once for each Ssr message handled and
   each removal of the last adapter, and nothing else is called on it; an Ssr closes it before it opens it again.
   */
  lemma CallsExact<T>(excluded: Mask, run: seq<Action<T>>)
    requires Exec(Init(excluded), run).Some?
    ensures var s := Exec(Init(excluded), run).value;
      && Closes(s.calls) == Closings(Init(excluded), run)
      && |s.calls| - Closes(s.calls) == Openings(run)
      && (s.queue != [] && s.queue[0] == LocSsrMsg ==>
           && Exec(Init(excluded), run + [ProcMsg]) == Some(Proc(s))
           && Proc(s).calls == s.calls + [Close, Open(EvtMask(s))])
  {
    CallsOfRun(Init(excluded), run);
    var s := Exec(Init(excluded), run).value;
    if s.queue != [] {
      ExecProc(Init(excluded), run);
      assert s.calls + [Close] + [Open(EvtMask(s))] == s.calls + [Close, Open(EvtMask(s))];
    }
  }

  lemma {:induction false} ExecProc<T>(s: Api<T>, run: seq<Action<T>>)
    requires Exec(s, run).Some? && Exec(s, run).value.queue != []
    ensures Exec(s, run + [ProcMsg]) == Some(Proc(Exec(s, run).value))
    decreases run
  {
    var last: seq<Action<T>> := [ProcMsg];
    if run == [] {
      assert run + last == last && last[1..] == [];
    } else {
      assert (run + last)[1..] == run[1..] + last;
      ExecProc(Step(s, run[0]), run[1..]);
    }
  }

  /** A concrete run after which the engine is open although the table is empty. */
  lemma OpenWithoutAdapters<T>(a: T)
    ensures Exec(Init({}), [Add(a, {0}), Remove(a), ProcMsg]) == Some(Api({}, [], [], [Close, Open({})]))
  {
    var s0: Api<T> := Init({});
    var s1 := Step(s0, Add(a, {0}));
    assert s1 == Api({}, [Entry(a, {0})], [LocOpenMsg], []);
    var s2 := Step(s1, Remove(a));
    assert s2 == Api({}, [], [LocOpenMsg], [Close]);
    var s3 := Step(s2, ProcMsg);
    assert EvtMask(s2) == {};
    assert s3 == Api({}, [], [], [Close, Open({})]);
    var r1: seq<Action<T>> := [Remove(a), ProcMsg];
    var r2: seq<Action<T>> := [ProcMsg];
    assert [Add(a, {0}), Remove(a), ProcMsg][1..] == r1 && r1[1..] == r2 && r2[1..] == [];
    assert Exec(s3, []) == Some(s3);
    assert Exec(s2, r2) == Some(s3);
    assert Exec(s1, r1) == Some(s3);
  }
}
