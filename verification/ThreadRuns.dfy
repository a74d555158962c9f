/** What a thread calls on its runnable, and what its owner can count on. */
module ThreadRuns {
  import opened Common
  import opened ThreadLife

  /** What the child does to the runnable, or finds. */
  datatype Deed = PrerunCalled | RunBegun | RunTrue | RunFalse | FoundNull | PostrunCalled

  predicate Does(s: State, a: Action, deed: Deed) {
    a.ChildStep? && match deed
      case PrerunCalled => s.child.at.Prerun? && s.d.running
      case RunBegun => s.child.at.CallRun?
      case RunTrue => s.child.at.InRun? && a.more
      case RunFalse => s.child.at.InRun? && !a.more
      case FoundNull => s.child.at.LoopTest? && !s.d.running
      case PostrunCalled => s.child.at.Postrun? && s.d.running
  }

  datatype Tally = Tally(preruns: nat, begun: nat, trues: nat, falses: nat, nulls: nat, postruns: nat)

  const NONE: Tally := Tally(0, 0, 0, 0, 0, 0)

  function Plus(t: Tally, s: State, a: Action): Tally {
    Tally(t.preruns + (if Does(s, a, PrerunCalled) then 1 else 0), t.begun + (if Does(s, a, RunBegun) then 1 else 0),
          t.trues + (if Does(s, a, RunTrue) then 1 else 0), t.falses + (if Does(s, a, RunFalse) then 1 else 0),
          t.nulls + (if Does(s, a, FoundNull) then 1 else 0), t.postruns + (if Does(s, a, PostrunCalled) then 1 else 0))
  }

  /** How often each of them happens in a run, on top of t. */
  function TallyOf(s: State, run: seq<Action>, t: Tally): Tally
    decreases run
  {
    if run == [] || !Enabled(s, run[0]) then t else TallyOf(Step(s, run[0]), run[1..], Plus(t, s, run[0]))
  }

  /** The child has left the loop of threadMain. */
  predicate PastLoop(s: State) {
    s.child.at.Postrun? || s.child.at.Nulling? || s.child.at.FreeRunnable?
    || (s.child.at.Exiting? && s.h.runnableFrees > 0)
  }

  /** The calls so far, place by place. */
  predicate Tallied(s: State, t: Tally) {
    && t.begun == s.h.runs && t.preruns <= 1 && t.postruns <= 1 && (t.begun > 0 ==> t.preruns == 1)
    && match s.child.at
       case LoopTest => t.begun == t.trues && t.falses + t.nulls + t.postruns == 0 && (s.d.running ==> t.preruns == 1)
       case CallRun => t.begun == t.trues && t.falses + t.nulls + t.postruns == 0 && t.preruns == 1
       case InRun => t.begun == t.trues + 1 && t.falses + t.nulls + t.postruns == 0
       case Postrun =>
         && t.begun == t.trues + t.falses && t.falses + t.nulls == 1 && t.postruns == 0
         && (t.nulls == 1 ==> !s.d.running)
       case Nulling => Ended(t) && (s.h.stopped.None? ==> t.postruns == 1)
       case FreeRunnable => Ended(t) && (s.h.stopped.None? ==> t.postruns == 1)
       case Exiting =>
         if s.h.runnableFrees > 0 then Ended(t) && (s.h.stopped.None? ==> t.postruns == 1)
         else t == NONE
       case _ => t == NONE
  }

  predicate Ended(t: Tally) {
    t.begun == t.trues + t.falses && t.falses + t.nulls == 1 && t.postruns <= t.falses
  }

  lemma ChildTallies(s: State, more: bool, t: Tally)
    requires Placed(s) && Ordering(s) && Tallied(s, t) && Enabled(s, ChildStep(more))
    ensures Tallied(DoChild(s, more), Plus(t, s, ChildStep(more)))
  {
  }

  /** The other steps leave the place of the child, unless they create it, and only reset mRunnable. */
  lemma OthersFrame(s: State, a: Action)
    requires Placed(s) && Ordering(s) && Enabled(s, a) && !a.ChildStep?
    ensures var s' := Step(s, a);
      && (s'.child.at == s.child.at || (s.child.at.NotCreated? && s'.child.at.Reading?))
      && (s'.d.running ==> s.d.running) && s'.h.runs == s.h.runs && s'.h.runnableFrees == s.h.runnableFrees
      && (s'.h.stopped.None? ==> s.h.stopped.None?)
  {
    match a
    case DestroyStep(who) => DestroyFrame(s, who);
    case ParentStep => ParentFrame(s);
    case _ =>
  }

  lemma StepTallies(s: State, a: Action, t: Tally)
    requires Placed(s) && Ordering(s) && Tallied(s, t) && Enabled(s, a)
    ensures Tallied(Step(s, a), Plus(t, s, a))
  {
    if a.ChildStep? {
      ChildTallies(s, a.more, t);
    } else {
      OthersFrame(s, a);
      assert Plus(t, s, a) == t;
    }
  }

  /** A run taken apart at its last step. */
  lemma {:induction false} TallyLast(s: State, run: seq<Action>, t: Tally)
    requires run != [] && Exec(s, run).Some?
    ensures var r, a := run[..|run| - 1], run[|run| - 1];
      && Exec(s, r).Some? && Enabled(Exec(s, r).value, a) && Exec(s, run) == Some(Step(Exec(s, r).value, a))
      && TallyOf(s, run, t) == Plus(TallyOf(s, r, t), Exec(s, r).value, a)
    decreases run
  {
    var n := |run| - 1;
    if n == 0 {
      assert run[..0] == [] && run[1..] == [];
    } else {
      TallyLast(Step(s, run[0]), run[1..], Plus(t, s, run[0]));
      assert run[1..][..n - 1] == run[..n][1..] && run[..n][0] == run[0];
    }
  }

  lemma {:induction false} InitTallies(joinable: bool, run: seq<Action>)
    requires Exec(Init(joinable), run).Some?
    ensures Owned(Exec(Init(joinable), run).value)
    ensures Tallied(Exec(Init(joinable), run).value, TallyOf(Init(joinable), run, NONE))
    decreases run
  {
    ExecKeeps(Init(joinable), run);
    if run != [] {
      var r := run[..|run| - 1];
      TallyLast(Init(joinable), run, NONE);
      ExecKeeps(Init(joinable), r);
      InitTallies(joinable, r);
      StepTallies(Exec(Init(joinable), r).value, run[|run| - 1], TallyOf(Init(joinable), r, NONE));
    }
  }

  lemma TalliedLoop(s: State, t: Tally)
    requires Owned(s) && Tallied(s, t)
    ensures t.begun == t.trues + t.falses + (if s.child.at.InRun? then 1 else 0)
    ensures t.falses + t.nulls == (if PastLoop(s) then 1 else 0)
  {
  }

  lemma TalliedAround(s: State, t: Tally)
    requires Owned(s) && Tallied(s, t)
    ensures t.postruns <= t.falses <= 1 && (t.postruns == 1 ==> PastLoop(s))
    ensures s.h.stopped.None? && s.h.runnableFrees == 1 ==> t.preruns == t.falses == t.postruns == 1
  {
  }

  // ---------- The main results ----------

  /**
   In every run: every call of run() but the latest has returned true; the child is past its loop exactly if the
   latest one returned false or mRunnable was found null in front of the next, and never both; the next one begins
   only after a true.
   */
  lemma LoopExactly(joinable: bool, run: seq<Action>)
    requires Exec(Init(joinable), run).Some?
    ensures var s := Exec(Init(joinable), run).value; var t := TallyOf(Init(joinable), run, NONE);
      && t.begun == s.h.runs == t.trues + t.falses + (if s.child.at.InRun? then 1 else 0)
      && t.falses + t.nulls == (if PastLoop(s) then 1 else 0)
      && (s.child.at.CallRun? ==> t.begun == t.trues)
  {
    InitTallies(joinable, run);
    TalliedLoop(Exec(Init(joinable), run).value, TallyOf(Init(joinable), run, NONE));
  }

  /**
   In every run: prerun() is called at most once, and before any run(); postrun() at most once, and only after a
   run() that returned false. Unless stop() reset mRunnable, a runnable that was deleted has had both.
   */
  lemma AroundTheLoop(joinable: bool, run: seq<Action>)
    requires Exec(Init(joinable), run).Some?
    ensures var s := Exec(Init(joinable), run).value; var t := TallyOf(Init(joinable), run, NONE);
      && t.preruns <= 1 && (t.begun > 0 ==> t.preruns == 1)
      && t.postruns <= t.falses <= 1 && (t.postruns == 1 ==> PastLoop(s))
      && (s.h.stopped.None? && s.h.runnableFrees == 1 ==> t.preruns == t.falses == t.postruns == 1)
  {
    InitTallies(joinable, run);
    TalliedAround(Exec(Init(joinable), run).value, TallyOf(Init(joinable), run, NONE));
  }

  /** start() returns true exactly if the thread was created and had not left its loop by line 114. */
  lemma StartReturnsExactly(joinable: bool, run: seq<Action>)
    requires Exec(Init(joinable), run).Some? && !Exec(Init(joinable), run).value.h.started.Unknown?
    ensures var s := Exec(Init(joinable), run).value;
      s.h.started.Succeeded? <==> Create(true) in run && !s.h.childFirst
  {
    ExecKeeps(Init(joinable), run);
    CreatedExactly(Init(joinable), run);
  }

  lemma {:induction false} CreatedExactly(s: State, run: seq<Action>)
    requires Inv(s) && Exec(s, run).Some?
    ensures Exec(s, run).value.child.at.NotCreated? <==> s.child.at.NotCreated? && Create(true) !in run
    decreases run
  {
    if run != [] {
      StepKeeps(s, run[0]);
      CreatedExactly(Step(s, run[0]), run[1..]);
      CreateStep(s, run[0]);
    }
  }

  lemma CreateStep(s: State, a: Action)
    requires Placed(s) && Ordering(s) && Enabled(s, a)
    ensures Step(s, a).child.at.NotCreated? <==> s.child.at.NotCreated? && a != Create(true)
  {
    if a.ChildStep? {
      ChildPlaced(s, a.more);
    } else if !a.Create? {
      OthersFrame(s, a);
    }
  }

  // ---------- stop() and bye() ----------

  /** Past the reset, mRunnable is null; and only a stop() resets it, or the bye() of a joinable thread. */
  predicate StopsOnly(s: State, run: seq<Action>) {
    && (s.parent.at.StopJoin? || s.parent.at.Joining? ==> !s.d.running)
    && (!s.joinable && (s.parent.at.StopTest? || s.parent.at.StopNull? || s.h.stopped.Some?) ==> CallStop in run)
  }

  lemma StepStopsOnly(s: State, before: seq<Action>, a: Action)
    requires Placed(s) && Ordering(s) && StopsOnly(s, before) && Enabled(s, a)
    ensures StopsOnly(Step(s, a), before + [a])
  {
    assert CallStop in before + [a] <==> CallStop in before || a == CallStop;
    if a.DestroyStep? {
      DestroyFrame(s, a.who);
    } else if a.ChildStep? {
      ChildFrame(s, a.more);
      ChildLeavesStop(s, a.more);
    }
  }

  lemma ChildLeavesStop(s: State, more: bool)
    requires Enabled(s, ChildStep(more))
    ensures DoChild(s, more).h.stopped == s.h.stopped && (DoChild(s, more).d.running ==> s.d.running)
  {
  }

  lemma {:induction false} ExecStopsOnly(s: State, before: seq<Action>, run: seq<Action>)
    requires Inv(s) && StopsOnly(s, before) && Exec(s, run).Some?
    ensures StopsOnly(Exec(s, run).value, before + run)
    decreases run
  {
    if run == [] {
      assert before + run == before;
    } else {
      StepStopsOnly(s, before, run[0]);
      StepKeeps(s, run[0]);
      ExecStopsOnly(Step(s, run[0]), before + [run[0]], run[1..]);
      assert before + run == before + [run[0]] + run[1..];
    }
  }

  /**
   In every run: when stop() comes to the join, mRunnable is null; and on a detached thread it is stop() alone that
   resets it, so bye() leaves the thread running.
   */
  lemma ByeLeavesRunning(joinable: bool, run: seq<Action>)
    requires Exec(Init(joinable), run).Some?
    ensures var s := Exec(Init(joinable), run).value;
      && (s.parent.at.StopJoin? || s.parent.at.Joining? ==> !s.d.running)
      && (!joinable && CallStop !in run ==> s.h.stopped.None?)
      && (!joinable && CallStop !in run && (s.child.at.Reading? || InLoop(s.child.at)) ==> s.d.running)
  {
    ExecKeeps(Init(joinable), run);
    ExecStopsOnly(Init(joinable), [], run);
    assert [] + run == run;
  }
}
