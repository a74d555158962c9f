/**
 The pending requests of ril.cpp on all SIM slots. A request is known by the address of its
 RequestInfo, which is also its token. Each section under one of the list mutexes is one step.
 */
module RequestModel {
  import opened Common

  const MAX_SIMS: nat := 4
  const ACK_EXP_VERSION: int := 13

  /** The fields of a RequestInfo; acked is wasAckSent == 1. */
  datatype Info = Info(socket: nat, local: bool, cancelled: bool, acked: bool)

  /** What responseFunction is called with. */
  datatype Response = Response(id: nat, ackExpected: bool)

  datatype State = State(
    simCount: nat,
    version: int,
    lists: seq<seq<nat>>,
    infos: seq<Info>,
    // history: requests whose ack was accepted; those completed, in order; the responses sent up
    ackedOnce: set<nat>,
    done: seq<nat>,
    responses: seq<Response>)

  datatype Action =
    | AddRequest(socket: nat, supported: bool)
    | SetFlags(id: nat, local: bool, cancelled: bool)
    | RequestAck(token: Option<nat>)
    | RequestComplete(token: Option<nat>)

  function Init(simCount: nat, version: int): State
    requires 1 <= simCount <= MAX_SIMS
  {
    State(simCount, version, [[], [], [], []], [], {}, [], [])
  }

  /** The list and mutex of a slot; a slot that is not configured falls back to the first list. */
  function Hook(socket: nat, simCount: nat): nat {
    if 1 <= socket < simCount then socket else 0
  }

  /** The list a request belongs to. */
  function ListOf(s: State, id: nat): seq<nat>
    requires |s.lists| == MAX_SIMS && s.simCount <= MAX_SIMS && id < |s.infos|
  {
    s.lists[Hook(s.infos[id].socket, s.simCount)]
  }

  predicate Listed(s: State, id: nat) {
    |s.lists| == MAX_SIMS && s.simCount <= MAX_SIMS && id < |s.infos| && id in ListOf(s, id)
  }

  /** A token is null or was once handed out; flags are set on pending requests only. */
  predicate Enabled(s: State, a: Action) {
    match a
    case AddRequest(_, _) => |s.lists| == MAX_SIMS && s.simCount <= MAX_SIMS
    case SetFlags(id, _, _) => Listed(s, id)
    case RequestAck(token) => token.Some? ==> token.value < |s.infos|
    case RequestComplete(token) => token.Some? ==> token.value < |s.infos|
  }

  function Removed<T(==)>(list: seq<T>, x: T): seq<T>
    decreases list
  {
    if list == [] then [] else if list[0] == x then list[1..] else [list[0]] + Removed(list[1..], x)
  }

  lemma {:induction false} RemovedAt<T>(list: seq<T>, x: T, i: nat)
    requires i < |list| && list[i] == x && forall k :: 0 <= k < i ==> list[k] != x
    ensures Removed(list, x) == list[..i] + list[i + 1..]
  {
    if i > 0 {
      RemovedAt(list[1..], x, i - 1);
      assert list[..i] == [list[0]] + list[1..][..i - 1];
    }
  }

  /** addRequestToList */
  function DoAdd(s: State, socket: nat, supported: bool): State
    requires |s.lists| == MAX_SIMS && s.simCount <= MAX_SIMS
  {
    if !supported then s
    else
      var k := Hook(socket, s.simCount);
      s.(lists := s.lists[k := [|s.infos|] + s.lists[k]], infos := s.infos + [Info(socket, false, false, false)])
  }

  /** checkAndDequeueRequestInfoIfAck for an ack, as RIL_onRequestAck calls it. */
  function DoAck(s: State, token: Option<nat>): State {
    if token.None? || !Listed(s, token.value) then s
    else
      var id := token.value;
      s.(infos := s.infos[id := s.infos[id].(acked := true)], ackedOnce := s.ackedOnce + {id})
  }

  /** RIL_onRequestComplete, which sends a response up unless the request is local or cancelled. */
  function DoComplete(s: State, token: Option<nat>): State {
    if token.None? || !Listed(s, token.value) then s
    else
      var id := token.value;
      var info := s.infos[id];
      var k := Hook(info.socket, s.simCount);
      s.(lists := s.lists[k := Removed(s.lists[k], id)], done := s.done + [id],
         responses := s.responses + if info.local || info.cancelled then []
                                    else [Response(id, s.version >= ACK_EXP_VERSION && info.acked)])
  }

  function Step(s: State, a: Action): State
    requires Enabled(s, a)
  {
    match a
    case AddRequest(socket, supported) => DoAdd(s, socket, supported)
    case SetFlags(id, local, cancelled) =>
      s.(infos := s.infos[id := s.infos[id].(local := local, cancelled := cancelled)])
    case RequestAck(token) => DoAck(s, token)
    case RequestComplete(token) => DoComplete(s, token)
  }

  function Exec(s: State, run: seq<Action>): Option<State>
    decreases run
  {
    if run == [] then Some(s)
    else if !Enabled(s, run[0]) then None
    else Exec(Step(s, run[0]), run[1..])
  }

  // ---------- What every run keeps ----------

  ghost predicate NoneTwice(ids: seq<nat>) {
    forall i, j :: 0 <= i < j < |ids| ==> ids[i] != ids[j]
  }

  /** Every list holds requests of its own slot, each once. */
  ghost predicate OwnSlots(s: State) {
    && |s.lists| == MAX_SIMS && 1 <= s.simCount <= MAX_SIMS
    && forall k :: 0 <= k < MAX_SIMS ==>
      && NoneTwice(s.lists[k])
      && forall id :: id in s.lists[k] ==> id < |s.infos| && Hook(s.infos[id].socket, s.simCount) == k
  }

  /** A request is pending or completed, and never both. */
  ghost predicate PendingOrDone(s: State) {
    && NoneTwice(s.done) && (forall id :: id in s.done ==> id < |s.infos|)
    && forall id :: 0 <= id < |s.infos| ==> (Listed(s, id) <==> id !in s.done)
  }

  ghost predicate Responded(s: State, id: nat) {
    exists r :: r in s.responses && r.id == id
  }

  ghost predicate ResponsesExact(s: State) {
    && (forall id :: 0 <= id < |s.infos| ==> (s.infos[id].acked <==> id in s.ackedOnce))
    && (forall id :: id in s.ackedOnce ==> id < |s.infos|)
    && (forall i, j :: 0 <= i < j < |s.responses| ==> s.responses[i].id != s.responses[j].id)
    && (forall r :: r in s.responses ==>
         r.id in s.done && (r.ackExpected <==> s.version >= ACK_EXP_VERSION && r.id in s.ackedOnce))
    && (forall id :: id in s.done ==>
         id < |s.infos| && (Responded(s, id) <==> !s.infos[id].local && !s.infos[id].cancelled))
  }

  ghost predicate Inv(s: State) {
    OwnSlots(s) && PendingOrDone(s) && ResponsesExact(s)
  }

  lemma {:induction false} RemovedExact(list: seq<nat>, id: nat)
    requires NoneTwice(list)
    ensures NoneTwice(Removed(list, id)) && forall x :: x in Removed(list, id) <==> x in list && x != id
  {
    if list != [] {
      RemovedExact(list[1..], id);
      assert list == [list[0]] + list[1..];
      assert list[0] !in list[1..];
    }
  }

  lemma AddKeeps(s: State, socket: nat)
    requires Inv(s)
    ensures Inv(DoAdd(s, socket, true))
  {
    var s', n, k := DoAdd(s, socket, true), |s.infos|, Hook(socket, s.simCount);
    assert forall id :: 0 <= id < n ==> s'.infos[id] == s.infos[id];
    forall id | 0 <= id < |s'.infos| ensures Listed(s', id) <==> id !in s.done {
      if id < n {
        assert Listed(s', id) <==> Listed(s, id);
      }
    }
    forall j | 0 <= j < MAX_SIMS
      ensures NoneTwice(s'.lists[j])
      ensures forall id :: id in s'.lists[j] ==> id < |s'.infos| && Hook(s'.infos[id].socket, s.simCount) == j
    {
      assert n !in s.lists[j] && NoneTwice(s.lists[j]);
    }
    forall id | id in s'.done ensures Responded(s', id) <==> !s'.infos[id].local && !s'.infos[id].cancelled {
      assert Responded(s', id) <==> Responded(s, id);
    }
  }

  lemma FieldsKeep(s: State, s': State)
    requires Inv(s)
    requires s'.lists == s.lists && s'.simCount == s.simCount && s'.version == s.version && |s'.infos| == |s.infos|
    requires forall id :: 0 <= id < |s.infos| ==> s'.infos[id].socket == s.infos[id].socket
    requires s'.done == s.done && s'.responses == s.responses
    ensures OwnSlots(s') && PendingOrDone(s')
    ensures forall id :: 0 <= id < |s.infos| ==>
      (Listed(s', id) <==> Listed(s, id)) && (Responded(s', id) <==> Responded(s, id))
  {
    forall id | 0 <= id < |s.infos| ensures Listed(s', id) <==> Listed(s, id) {
    }
  }

  lemma SetFlagsKeeps(s: State, a: Action)
    requires Inv(s) && a.SetFlags? && Enabled(s, a)
    ensures Inv(Step(s, a))
  {
    FieldsKeep(s, Step(s, a));
  }

  lemma AckKeeps(s: State, token: Option<nat>)
    requires Inv(s)
    ensures Inv(DoAck(s, token))
  {
    FieldsKeep(s, DoAck(s, token));
  }

  lemma CompleteKeepsLists(s: State, id: nat)
    requires Inv(s) && Listed(s, id)
    ensures OwnSlots(DoComplete(s, Some(id))) && PendingOrDone(DoComplete(s, Some(id)))
  {
    var s', k := DoComplete(s, Some(id)), Hook(s.infos[id].socket, s.simCount);
    RemovedExact(s.lists[k], id);
    forall x | 0 <= x < |s'.infos| ensures Listed(s', x) <==> x !in s'.done {
      assert Listed(s', x) <==> Listed(s, x) && x != id;
    }
  }

  lemma CompleteKeepsResponses(s: State, id: nat)
    requires Inv(s) && Listed(s, id)
    ensures ResponsesExact(DoComplete(s, Some(id)))
  {
    var s' := DoComplete(s, Some(id));
    assert id !in s.done && !Responded(s, id);
    forall x | x in s'.done ensures Responded(s', x) <==> !s'.infos[x].local && !s'.infos[x].cancelled {
      if x == id {
        if !s.infos[id].local && !s.infos[id].cancelled {
          assert s'.responses[|s.responses|] in s'.responses;
        }
      } else {
        assert Responded(s', x) <==> Responded(s, x);
      }
    }
  }

  lemma StepKeeps(s: State, a: Action)
    requires Inv(s) && Enabled(s, a)
    ensures Inv(Step(s, a)) && Step(s, a).version == s.version && Step(s, a).simCount == s.simCount
  {
    match a
    case AddRequest(socket, supported) => AddKeeps(s, socket);
    case SetFlags(_, _, _) => SetFlagsKeeps(s, a);
    case RequestAck(token) => AckKeeps(s, token);
    case RequestComplete(token) =>
      if token.Some? && Listed(s, token.value) {
        CompleteKeepsLists(s, token.value);
        CompleteKeepsResponses(s, token.value);
      }
  }

  lemma {:induction false} ExecKeeps(s: State, run: seq<Action>)
    requires Inv(s) && Exec(s, run).Some?
    ensures Inv(Exec(s, run).value)
    ensures Exec(s, run).value.version == s.version && Exec(s, run).value.simCount == s.simCount
    decreases run
  {
    if run != [] {
      StepKeeps(s, run[0]);
      ExecKeeps(Step(s, run[0]), run[1..]);
    }
  }

  // ---------- The main results ----------

  /**
   In every state of every run no request was completed twice, and each one that was ever added is either completed
   or in the list of its own slot, where it stands once.
   */
  lemma CompletedAtMostOnce(simCount: nat, version: int, run: seq<Action>)
    requires 1 <= simCount <= MAX_SIMS && Exec(Init(simCount, version), run).Some?
    ensures var s := Exec(Init(simCount, version), run).value;
      && NoneTwice(s.done) && (forall id :: 0 <= id < |s.infos| ==> (Listed(s, id) <==> id !in s.done))
      && s.simCount == simCount && OwnSlots(s)
  {
    ExecKeeps(Init(simCount, version), run);
  }

  /**
   A completed request got one response if it was neither local nor cancelled, and none otherwise; the response
   expects an ack exactly if the version is 13 or later and an ack of the request had been accepted.
   */
  lemma ResponseTypeExact(simCount: nat, version: int, run: seq<Action>)
    requires 1 <= simCount <= MAX_SIMS && Exec(Init(simCount, version), run).Some?
    ensures var s := Exec(Init(simCount, version), run).value;
      && (forall id :: id in s.done ==>
            id < |s.infos| && (Responded(s, id) <==> !s.infos[id].local && !s.infos[id].cancelled))
      && (forall i, j :: 0 <= i < j < |s.responses| ==> s.responses[i].id != s.responses[j].id)
      && (forall r :: r in s.responses ==>
            r.id in s.done && (r.ackExpected <==> version >= 13 && r.id in s.ackedOnce))
  {
    ExecKeeps(Init(simCount, version), run);
  }

  /** An ack or a completion is accepted exactly for a request that is not completed yet; acks leave the lists alone. */
  lemma AcceptedExactly(simCount: nat, version: int, run: seq<Action>, id: nat)
    requires 1 <= simCount <= MAX_SIMS && Exec(Init(simCount, version), run).Some?
    requires id < |Exec(Init(simCount, version), run).value.infos|
    ensures var s := Exec(Init(simCount, version), run).value;
      && (DoComplete(s, Some(id)) == s <==> id in s.done)
      && (id in s.done ==> DoAck(s, Some(id)) == s)
      && (id !in s.done ==> id in DoAck(s, Some(id)).ackedOnce)
      && DoAck(s, Some(id)).lists == s.lists && DoAck(s, Some(id)).done == s.done
  {
    ExecKeeps(Init(simCount, version), run);
    var s := Exec(Init(simCount, version), run).value;
    assert id !in s.done ==> |DoComplete(s, Some(id)).done| == |s.done| + 1;
  }
}
