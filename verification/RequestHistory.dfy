/** What the state of the pending requests owes to the calls of the run, request by request. */
module RequestHistory {
  import opened Common
  import opened RequestModel

  /** The slots of the requests that were added, in order. */
  function Sockets(run: seq<Action>): seq<nat>
    decreases run
  {
    if run == [] then []
    else
      var n := |run| - 1;
      Sockets(run[..n]) + if run[n].AddRequest? && run[n].supported then [run[n].socket] else []
  }

  /** The flags last set for a request: none at first. */
  function Flags(run: seq<Action>, id: nat): (bool, bool)
    decreases run
  {
    if run == [] then (false, false)
    else
      var n := |run| - 1;
      if run[n].SetFlags? && run[n].id == id then (run[n].local, run[n].cancelled) else Flags(run[..n], id)
  }

  /** An ack was reported for a request before its completion was. */
  predicate AckedInTime(run: seq<Action>, id: nat)
    decreases run
  {
    run != []
    && ((run[|run| - 1] == RequestAck(Some(id)) && RequestComplete(Some(id)) !in run[..|run| - 1])
        || AckedInTime(run[..|run| - 1], id))
  }

  /** The list of the slot itself, if it is configured, and the first list otherwise. */
  function SlotList(socket: nat, simCount: nat): nat {
    if socket < simCount then socket else 0
  }

  ghost predicate Told(s: State, run: seq<Action>) {
    && |s.infos| == |Sockets(run)| && (forall id :: 0 <= id < |s.infos| ==> ToldOf(s, run, id))
    && (forall id: nat :: RequestComplete(Some(id)) in run ==> id < |s.infos|)
    && (forall id: nat :: AckedInTime(run, id) ==> id < |s.infos|)
  }

  ghost predicate ToldOf(s: State, run: seq<Action>, id: nat)
    requires id < |s.infos| == |Sockets(run)|
  {
    && s.infos[id].socket == Sockets(run)[id] && (s.infos[id].local, s.infos[id].cancelled) == Flags(run, id)
    && (id in s.ackedOnce <==> AckedInTime(run, id)) && (id in s.done <==> RequestComplete(Some(id)) in run)
  }

  lemma {:induction false} ExecLast(s: State, run: seq<Action>)
    requires run != [] && Exec(s, run).Some?
    ensures var before := Exec(s, run[..|run| - 1]);
      && before.Some? && Enabled(before.value, run[|run| - 1])
      && Exec(s, run) == Some(Step(before.value, run[|run| - 1]))
    decreases run
  {
    if |run| == 1 {
      assert run[1..] == [] && run[..0] == [];
    } else {
      assert run[..|run| - 1][1..] == run[1..][..|run| - 2] && run[1..][|run| - 2] == run[|run| - 1];
      ExecLast(Step(s, run[0]), run[1..]);
    }
  }

  lemma OneMore(run: seq<Action>, a: Action, id: nat)
    ensures Sockets(run + [a]) == Sockets(run) + if a.AddRequest? && a.supported then [a.socket] else []
    ensures Flags(run + [a], id) == if a.SetFlags? && a.id == id then (a.local, a.cancelled) else Flags(run, id)
    ensures AckedInTime(run + [a], id) <==>
      (a == RequestAck(Some(id)) && RequestComplete(Some(id)) !in run) || AckedInTime(run, id)
    ensures RequestComplete(Some(id)) in run + [a] <==>
      a == RequestComplete(Some(id)) || RequestComplete(Some(id)) in run
  {
    assert (run + [a])[..|run|] == run;
  }

  /** A request that is new has no past. */
  lemma {:induction false} Unheard(run: seq<Action>, id: nat)
    requires forall i :: 0 <= i < |run| ==> run[i].SetFlags? ==> run[i].id != id
    ensures Flags(run, id) == (false, false)
    decreases run
  {
    if run != [] {
      Unheard(run[..|run| - 1], id);
    }
  }

  ghost predicate FlagsInTime(s: State, run: seq<Action>) {
    forall i :: 0 <= i < |run| && run[i].SetFlags? ==> run[i].id < |s.infos|
  }

  lemma StepTells(s: State, run: seq<Action>, a: Action)
    requires Inv(s) && Told(s, run) && FlagsInTime(s, run) && Enabled(s, a)
    ensures Told(Step(s, a), run + [a]) && FlagsInTime(Step(s, a), run + [a])
  {
    var s' := Step(s, a);
    OneMore(run, a, 0);
    forall id | 0 <= id < |s'.infos| ensures ToldOf(s', run + [a], id) {
      OneMore(run, a, id);
      if id < |s.infos| {
        assert ToldOf(s, run, id);
        assert Listed(s, id) <==> id !in s.done;
      } else {
        Unheard(run, id);
      }
    }
    forall id: nat | RequestComplete(Some(id)) in run + [a] ensures id < |s'.infos| {
      OneMore(run, a, id);
    }
    forall id: nat | AckedInTime(run + [a], id) ensures id < |s'.infos| {
      OneMore(run, a, id);
    }
  }

  lemma {:induction false} RunTells(simCount: nat, version: int, run: seq<Action>)
    requires 1 <= simCount <= MAX_SIMS && Exec(Init(simCount, version), run).Some?
    ensures var s := Exec(Init(simCount, version), run).value; Told(s, run) && FlagsInTime(s, run)
    decreases run
  {
    if run != [] {
      var before := run[..|run| - 1];
      ExecLast(Init(simCount, version), run);
      ExecKeeps(Init(simCount, version), before);
      RunTells(simCount, version, before);
      StepTells(Exec(Init(simCount, version), before).value, before, run[|run| - 1]);
      assert run == before + [run[|run| - 1]];
    }
  }

  /**
   In every run the requests are those added and supported, in order; a request is completed exactly if a completion
   of it was reported, its flags are the last ones set, and its ack counts exactly if reported before that.
   */
  lemma HistoryExact(simCount: nat, version: int, run: seq<Action>, id: nat)
    requires 1 <= simCount <= MAX_SIMS && Exec(Init(simCount, version), run).Some?
    requires id < |Exec(Init(simCount, version), run).value.infos|
    ensures var s := Exec(Init(simCount, version), run).value;
      && |s.infos| == |Sockets(run)| && s.infos[id].socket == Sockets(run)[id]
      && (s.infos[id].local, s.infos[id].cancelled) == Flags(run, id)
      && (id in s.ackedOnce <==> AckedInTime(run, id)) && (id in s.done <==> RequestComplete(Some(id)) in run)
  {
    RunTells(simCount, version, run);
    assert ToldOf(Exec(Init(simCount, version), run).value, run, id);
  }

  /**
   In every run a request stands in the list of its own slot, or in the first list if its slot is not configured,
   until its completion is reported, and in no other list.
   */
  lemma SlotExact(simCount: nat, version: int, run: seq<Action>, id: nat, k: nat)
    requires 1 <= simCount <= MAX_SIMS && Exec(Init(simCount, version), run).Some? && k < MAX_SIMS
    ensures var s := Exec(Init(simCount, version), run).value;
      && |s.lists| == MAX_SIMS
      && (id in s.lists[k] <==>
           && id < |Sockets(run)| && RequestComplete(Some(id)) !in run
           && k == SlotList(Sockets(run)[id], simCount))
  {
    ExecKeeps(Init(simCount, version), run);
    RunTells(simCount, version, run);
    var s := Exec(Init(simCount, version), run).value;
    if id < |s.infos| {
      assert ToldOf(s, run, id);
      assert Listed(s, id) <==> id !in s.done;
    }
  }
}
