/**
 The life of one LocThreadDelegate of LocThread.cpp, shared by the thread that starts it (the parent)
 and the thread it spawns (the child). Every read or write of a field is a step of its own, so that
 all interleavings of the two threads are runs.
 */
module ThreadLife {
  import opened Common

  datatype Who = TheParent | TheChild

  /** Where a thread is in destroy(), before it and after it. */
  datatype Leaving = Before | Testing | Locking | Unlocking | Deleting | Left

  datatype ParentAt =
    | Constructing
    | Checking                // create(), line 114
    | Owning                  // start() returned true
    | StopTest | StopNull     // stop(), the test and the reset of mRunnable
    | StopJoin | Joining      // the test and reset of mJoinable, pthread_join
    | Parting                 // destroy()

  datatype ChildAt =
    | NotCreated
    | Reading                 // threadMain(), line 177
    | Prerun | LoopTest | CallRun | InRun | Postrun
    | Nulling | FreeRunnable
    | Exiting                 // destroy()

  /** The flag callDelete is a local variable of destroy(). */
  datatype Thread<A> = Thread(at: A, leaving: Leaving, callDelete: bool)

  /** mRunnable (whether it is not null), mJoinable, mRefCount, and who holds mMutex. */
  datatype Delegate = Delegate(running: bool, mJoinable: bool, refs: int, mutex: Option<Who>)

  /** What start() returned. */
  datatype Outcome = Unknown | Succeeded | Refused

  datatype History = History(
    frees: nat,
    touchedFreed: bool,
    runs: nat,
    runnableFrees: nat,
    started: Outcome,
    // how many calls of run() had begun when stop() reset mRunnable
    stopped: Option<nat>,
    // the child had left its loop before the parent came to line 114; stop() came before the child to line 177
    childFirst: bool,
    stopFirst: bool)

  datatype State = State(joinable: bool, parent: Thread<ParentAt>, child: Thread<ChildAt>, d: Delegate, h: History)

  datatype Action =
    | Create(ok: bool)
    | CallStop
    | CallBye
    | ParentStep
    | ChildStep(more: bool)
    | DestroyStep(who: Who)

  function Init(joinable: bool): State {
    State(joinable, Thread(Constructing, Before, false), Thread(NotCreated, Before, false),
          Delegate(true, joinable, 2, None), History(0, false, 0, 0, Unknown, None, false, false))
  }

  function LeavingOf(s: State, who: Who): Leaving {
    if who.TheParent? then s.parent.leaving else s.child.leaving
  }

  predicate Enabled(s: State, a: Action) {
    match a
    case Create(_) => s.parent.at.Constructing?
    case CallStop => s.parent.at.Owning?
    case CallBye => s.parent.at.Owning?
    case ParentStep =>
      && !s.parent.at.Constructing? && !s.parent.at.Owning? && !s.parent.at.Parting?
      && (s.parent.at.Joining? ==> s.child.leaving.Left?)
    case ChildStep(_) => !s.child.at.NotCreated? && !s.child.at.Exiting?
    case DestroyStep(who) =>
      var l := LeavingOf(s, who);
      !l.Before? && !l.Left? && (l.Locking? ==> s.d.mutex.None?)
  }

  /** A field of the delegate is read or written. */
  function Touch(s: State): State {
    s.(h := s.h.(touchedFreed := s.h.touchedFreed || s.h.frees > 0))
  }

  function ParentTo(s: State, at: ParentAt): State {
    s.(parent := Thread(at, if at.Parting? then Testing else Before, false))
  }

  function ChildTo(s: State, at: ChildAt): State {
    s.(child := Thread(at, if at.Exiting? then Testing else Before, false))
  }

  function DoParent(s: State): State
    requires Enabled(s, ParentStep)
  {
    match s.parent.at
    case Checking =>
      var childFirst := s.child.at.FreeRunnable? || s.child.at.Exiting?;
      if s.d.running then ParentTo(s, Owning).(h := Touch(s).h.(started := Succeeded, childFirst := childFirst))
      else ParentTo(s, Parting).(h := Touch(s).h.(started := Refused, childFirst := childFirst))
    case StopTest => ParentTo(Touch(s), if s.d.running then StopNull else StopJoin)
    case StopNull =>
      ParentTo(s, StopJoin).(d := s.d.(running := false), h := Touch(s).h.(stopped := Some(s.h.runs)))
    case StopJoin =>
      if s.d.mJoinable then ParentTo(Touch(s), Joining).(d := s.d.(mJoinable := false))
      else ParentTo(Touch(s), Parting)
    case Joining => ParentTo(s, Parting)
  }

  function DoChild(s: State, more: bool): State
    requires Enabled(s, ChildStep(more))
  {
    match s.child.at
    case Reading =>
      ChildTo(s, if s.d.running then Prerun else Exiting).(h := Touch(s).h.(stopFirst := s.h.stopped.Some?))
    case Prerun => ChildTo(Touch(s), LoopTest)
    case LoopTest => ChildTo(Touch(s), if s.d.running then CallRun else Postrun)
    case CallRun => ChildTo(s, InRun).(h := s.h.(runs := s.h.runs + 1))
    case InRun => ChildTo(s, if more then LoopTest else Postrun)
    case Postrun => ChildTo(Touch(s), Nulling)
    case Nulling => ChildTo(Touch(s), FreeRunnable).(d := s.d.(running := false))
    case FreeRunnable => ChildTo(s, Exiting).(h := s.h.(runnableFrees := s.h.runnableFrees + 1))
  }

  function At(s: State, who: Who, l: Leaving): State {
    if who.TheParent? then s.(parent := s.parent.(leaving := l)) else s.(child := s.child.(leaving := l))
  }

  /** One step of destroy(). */
  function DoDestroy(s: State, who: Who): State
    requires Enabled(s, DestroyStep(who))
  {
    match LeavingOf(s, who)
    case Testing => At(Touch(s), who, if s.d.refs > 0 then Locking else Left)
    case Locking =>
      var flagged := if who.TheParent? then s.(parent := s.parent.(callDelete := s.d.refs == 1))
                     else s.(child := s.child.(callDelete := s.d.refs == 1));
      At(Touch(flagged), who, Unlocking).(d := s.d.(refs := s.d.refs - 1, mutex := Some(who)))
    case Unlocking =>
      var flag := if who.TheParent? then s.parent.callDelete else s.child.callDelete;
      At(Touch(s), who, if flag then Deleting else Left).(d := s.d.(mutex := None))
    case Deleting => At(s, who, Left).(h := Touch(s).h.(frees := s.h.frees + 1))
  }

  function Step(s: State, a: Action): State
    requires Enabled(s, a)
  {
    match a
    case Create(ok) =>
      if ok then ChildTo(ParentTo(s, Checking), Reading)
      else ParentTo(s, Checking).(d := s.d.(running := false, mJoinable := false, refs := 1))
    case CallStop => ParentTo(s, StopTest)
    case CallBye => ParentTo(Touch(s), if s.d.mJoinable then StopTest else Parting)
    case ParentStep => DoParent(s)
    case ChildStep(more) => DoChild(s, more)
    case DestroyStep(who) => DoDestroy(s, who)
  }

  function Exec(s: State, run: seq<Action>): Option<State>
    decreases run
  {
    if run == [] then Some(s)
    else if !Enabled(s, run[0]) then None
    else Exec(Step(s, run[0]), run[1..])
  }

  // ---------- What every run keeps ----------

  predicate Holds(l: Leaving) {
    l.Before? || l.Testing? || l.Locking?
  }

  /** One for the parent and one for a child that exists, until they have given up theirs. */
  function References(s: State): int {
    (if Holds(s.parent.leaving) then 1 else 0)
    + (if Holds(s.child.leaving) && (s.parent.at.Constructing? || !s.child.at.NotCreated?) then 1 else 0)
  }

  predicate WillDelete(l: Leaving, callDelete: bool) {
    l.Deleting? || (l.Unlocking? && callDelete)
  }

  function Deleters(s: State): int {
    (if WillDelete(s.parent.leaving, s.parent.callDelete) then 1 else 0)
    + (if WillDelete(s.child.leaving, s.child.callDelete) then 1 else 0)
  }

  /** Each thread is before destroy(), or in it or past it, as its place says. */
  predicate Placed(s: State) {
    && (s.parent.leaving.Before? <==> !s.parent.at.Parting?)
    && (s.child.leaving.Before? <==> !s.child.at.Exiting?)
    && (s.parent.at.Constructing? ==> s.child.at.NotCreated?)
  }

  /** The count is the number of references, and the thread that gives up the last one deletes, once. */
  predicate Counted(s: State) {
    && s.d.refs == References(s)
    && s.h.frees + Deleters(s) == (if s.d.refs == 0 then 1 else 0)
    && !s.h.touchedFreed
  }

  /** A thread that found another reference lets go of the mutex before the other one can count down. */
  predicate Exclusive(s: State) {
    && (s.d.mutex == Some(TheParent) <==> s.parent.leaving.Unlocking?)
    && (s.d.mutex == Some(TheChild) <==> s.child.leaving.Unlocking?)
    && (s.parent.leaving.Unlocking? && !s.parent.callDelete ==> s.d.refs == 1)
    && (s.child.leaving.Unlocking? && !s.child.callDelete ==> s.d.refs == 1)
  }

  /** How often run() has begun since stop() reset mRunnable, and still may. */
  predicate StopsSoon(s: State) {
    s.h.stopped.Some? ==>
      && !s.d.running && s.h.stopped.value <= s.h.runs
      && s.h.runs + (if s.child.at.CallRun? then 1 else 0) <= s.h.stopped.value + 1
  }

  predicate InLoop(c: ChildAt) {
    c.Prerun? || c.LoopTest? || c.CallRun? || c.InRun? || c.Postrun? || c.Nulling?
  }

  /** Who resets mRunnable. */
  predicate Running(s: State) {
    && (s.parent.at.Constructing? ==> s.d.running)
    && (!s.parent.at.Constructing? && s.child.at.NotCreated? ==> !s.d.running && s.h.stopped.None?)
    && (!s.child.at.NotCreated? && s.h.stopped.None? ==> (s.d.running <==> s.child.at.Reading? || InLoop(s.child.at)))
    && (s.h.stopped.Some? ==> s.h.started.Succeeded?)
  }

  /** The parent has the delegate, and has not come to destroy(). */
  predicate OwnsIt(p: ParentAt) {
    p.Owning? || p.StopTest? || p.StopNull? || p.StopJoin? || p.Joining?
  }

  /** What start() returned. */
  predicate Started(s: State) {
    && (s.h.started.Unknown? <==> s.parent.at.Constructing? || s.parent.at.Checking?)
    && (OwnsIt(s.parent.at) ==> s.h.started.Succeeded?)
    && (s.h.started.Succeeded? ==> !s.child.at.NotCreated?)
    && (s.h.childFirst <==> s.h.started.Refused? && !s.child.at.NotCreated?)
    && (s.h.childFirst ==> s.child.at.FreeRunnable? || s.child.at.Exiting?)
  }

  /** What becomes of the runnable. */
  predicate Owned(s: State) {
    && s.h.runnableFrees == (if s.child.at.Exiting? && !s.h.stopFirst then 1 else 0)
    && (s.h.stopFirst ==> s.h.stopped.Some? && s.child.at.Exiting?)
  }

  /** A joinable thread is joined before its owner lets go of it. */
  predicate JoinsFirst(s: State) {
    && (s.parent.at.Constructing? ==> s.d.mJoinable == s.joinable)
    && (!s.child.at.NotCreated? && !s.parent.at.Joining? && !s.parent.at.Parting? ==> s.d.mJoinable == s.joinable)
    && (s.h.started.Succeeded? && s.joinable && s.parent.at.Parting? ==> s.child.leaving.Left?)
  }

  predicate Sharing(s: State) {
    Placed(s) && Counted(s) && Exclusive(s)
  }

  predicate Ordering(s: State) {
    Running(s) && StopsSoon(s) && Started(s) && Owned(s) && JoinsFirst(s)
  }

  predicate Inv(s: State) {
    Sharing(s) && Ordering(s)
  }

  /** Before it comes to destroy() the parent leaves the count, the mutex and the child alone. */
  lemma ParentFrame(s: State)
    requires Enabled(s, ParentStep)
    ensures var s' := DoParent(s);
      && s'.child == s.child && s'.d == s.d.(running := s'.d.running, mJoinable := s'.d.mJoinable)
      && s'.h.frees == s.h.frees && (s'.h.touchedFreed ==> s.h.touchedFreed || s.h.frees > 0)
      && s'.parent == Thread(s'.parent.at, if s'.parent.at.Parting? then Testing else Before, false)
      && !s'.parent.at.Constructing?
  {
    match s.parent.at
    case Checking =>
    case StopTest =>
    case StopNull =>
    case StopJoin =>
    case Joining =>
  }

  lemma ParentCounts(s: State)
    requires Sharing(s) && Enabled(s, ParentStep)
    ensures Sharing(DoParent(s))
  {
    ParentFrame(s);
    assert s.d.refs > 0 && s.h.frees == 0;
  }

  lemma ParentStarts(s: State)
    requires Placed(s) && Running(s) && Started(s) && Owned(s) && Enabled(s, ParentStep)
    ensures Started(DoParent(s)) && Owned(DoParent(s))
  {
  }

  lemma ParentStops(s: State)
    requires Running(s) && Started(s) && StopsSoon(s) && Enabled(s, ParentStep)
    ensures Running(DoParent(s)) && StopsSoon(DoParent(s))
  {
  }

  lemma ParentOrders(s: State)
    requires Placed(s) && Ordering(s) && Enabled(s, ParentStep)
    ensures Ordering(DoParent(s))
  {
    ParentStarts(s);
    ParentStops(s);
  }

  /** Before it comes to destroy() the child leaves the count, the mutex and the parent alone. */
  lemma ChildFrame(s: State, more: bool)
    requires Enabled(s, ChildStep(more))
    ensures var s' := DoChild(s, more);
      && s'.parent == s.parent && s'.d == s.d.(running := s'.d.running)
      && s'.h.frees == s.h.frees && (s'.h.touchedFreed ==> s.h.touchedFreed || s.h.frees > 0)
  {
    match s.child.at
    case Reading =>
    case Prerun =>
    case LoopTest =>
    case CallRun =>
    case InRun =>
    case Postrun =>
    case Nulling =>
    case FreeRunnable =>
  }

  lemma ChildPlaced(s: State, more: bool)
    requires Enabled(s, ChildStep(more))
    ensures var c := DoChild(s, more).child;
      !c.at.NotCreated? && c.leaving == if c.at.Exiting? then Testing else Before
  {
  }

  lemma ChildCounts(s: State, more: bool)
    requires Sharing(s) && Enabled(s, ChildStep(more))
    ensures Sharing(DoChild(s, more))
  {
    ChildFrame(s, more);
    ChildPlaced(s, more);
    assert s.child.leaving.Before? && s.d.refs > 0 && s.h.frees == 0;
  }

  lemma ChildOrders(s: State, more: bool)
    requires Placed(s) && Ordering(s) && Enabled(s, ChildStep(more))
    ensures Ordering(DoChild(s, more))
  {
    assert s.child.leaving.Before? && DoChild(s, more).parent == s.parent;
  }

  lemma DestroyCounts(s: State, who: Who)
    requires Sharing(s) && Enabled(s, DestroyStep(who))
    ensures Sharing(DoDestroy(s, who))
  {
    var s' := DoDestroy(s, who);
    assert s.d.refs > 0 ==> s.h.frees == 0;
    match LeavingOf(s, who)
    case Testing => assert References(s') == References(s) && Deleters(s') == Deleters(s);
    case Locking => assert References(s') == References(s) - 1;
    case Unlocking => assert s.h.frees == 0 && References(s') == References(s);
    case Deleting => assert s.h.frees == 0 && References(s') == References(s);
  }

  /** destroy() changes neither the place of a thread nor what the delegate is running. */
  lemma DestroyFrame(s: State, who: Who)
    requires Enabled(s, DestroyStep(who))
    ensures var s' := DoDestroy(s, who);
      && s'.parent.at == s.parent.at && s'.child.at == s.child.at && s'.joinable == s.joinable
      && s'.d == s.d.(refs := s'.d.refs, mutex := s'.d.mutex)
      && s'.h == s.h.(frees := s'.h.frees, touchedFreed := s'.h.touchedFreed)
      && (s.child.leaving.Left? ==> s'.child.leaving.Left?)
  {
    match LeavingOf(s, who)
    case Testing =>
    case Locking =>
    case Unlocking =>
    case Deleting =>
  }

  lemma DestroyOrders(s: State, who: Who)
    requires Placed(s) && Ordering(s) && Enabled(s, DestroyStep(who))
    ensures Ordering(DoDestroy(s, who))
  {
    DestroyFrame(s, who);
  }

  lemma OwnerKeeps(s: State, a: Action)
    requires Inv(s) && Enabled(s, a) && (a.Create? || a.CallStop? || a.CallBye?)
    ensures Inv(Step(s, a)) && Step(s, a).joinable == s.joinable
  {
  }

  lemma StepKeeps(s: State, a: Action)
    requires Inv(s) && Enabled(s, a)
    ensures Inv(Step(s, a)) && Step(s, a).joinable == s.joinable
  {
    match a
    case ParentStep =>
      ParentCounts(s);
      ParentOrders(s);
    case ChildStep(more) =>
      ChildCounts(s, more);
      ChildOrders(s, more);
    case DestroyStep(who) =>
      DestroyCounts(s, who);
      DestroyOrders(s, who);
      DestroyFrame(s, who);
    case _ => OwnerKeeps(s, a);
  }

  lemma {:induction false} ExecKeeps(s: State, run: seq<Action>)
    requires Inv(s) && Exec(s, run).Some?
    ensures Inv(Exec(s, run).value) && Exec(s, run).value.joinable == s.joinable
    decreases run
  {
    if run != [] {
      StepKeeps(s, run[0]);
      ExecKeeps(Step(s, run[0]), run[1..]);
    }
  }

  // ---------- The main results ----------

  /** Both threads are through with the delegate; the child perhaps never came to be. */
  predicate AllLeft(s: State) {
    s.parent.leaving.Left? && (s.child.leaving.Left? || s.child.at.NotCreated?)
  }

  /**
   However the two threads interleave, none of them touches the delegate after it was freed, and it is freed at
   most once: exactly when both threads are through with it.
   */
  lemma FreedOnceByTheLast(joinable: bool, run: seq<Action>)
    requires Exec(Init(joinable), run).Some?
    ensures var s := Exec(Init(joinable), run).value;
      && !s.h.touchedFreed && s.h.frees <= 1
      && (s.h.frees == 1 ==> !Holds(s.parent.leaving) && (!Holds(s.child.leaving) || s.child.at.NotCreated?))
      && (AllLeft(s) ==> s.h.frees == 1)
  {
    ExecKeeps(Init(joinable), run);
  }

  /** Once stop() has reset mRunnable, at most one more call of run() begins. */
  lemma AtMostOneMoreRun(joinable: bool, run: seq<Action>)
    requires Exec(Init(joinable), run).Some?
    ensures var s := Exec(Init(joinable), run).value;
      s.h.stopped.Some? ==> s.h.stopped.value <= s.h.runs <= s.h.stopped.value + 1
  {
    ExecKeeps(Init(joinable), run);
  }

  /** The owner of a joinable thread is not in destroy(), let alone past stop(), before threadMain() has ended. */
  lemma StopJoins(joinable: bool, run: seq<Action>)
    requires Exec(Init(joinable), run).Some?
    ensures var s := Exec(Init(joinable), run).value;
      joinable && s.h.started.Succeeded? && !s.parent.leaving.Before? ==> s.child.leaving.Left?
  {
    ExecKeeps(Init(joinable), run);
  }

  /** What LocThread.h promises of start(): the runnable is deleted here if and only if it returns true. */
  predicate KeepsPromise(s: State) {
    s.h.runnableFrees == if s.h.started.Succeeded? then 1 else 0
  }

  /**
   The promise is kept if and only if neither thread was too fast: the child did not leave its loop before
   the parent's check, and stop() did not come before the child read mRunnable. The runnable is never freed twice.
   */
  lemma PromiseKeptExactly(joinable: bool, run: seq<Action>)
    requires Exec(Init(joinable), run).Some? && AllLeft(Exec(Init(joinable), run).value)
    ensures var s := Exec(Init(joinable), run).value;
      (KeepsPromise(s) <==> !s.h.childFirst && !s.h.stopFirst) && s.h.runnableFrees <= 1
  {
    ExecKeeps(Init(joinable), run);
    var s := Exec(Init(joinable), run).value;
    assert s.parent.at.Parting? && (s.child.at.NotCreated? || s.child.at.Exiting?);
  }

  // ---------- The two ways to break the promise ----------

  lemma {:induction false} ExecOneMore(s: State, run: seq<Action>, a: Action)
    requires Exec(s, run).Some? && Enabled(Exec(s, run).value, a)
    ensures Exec(s, run + [a]) == Some(Step(Exec(s, run).value, a))
    decreases run
  {
    if run == [] {
      assert [a][1..] == [];
    } else {
      assert (run + [a])[1..] == run[1..] + [a];
      ExecOneMore(Step(s, run[0]), run[1..], a);
    }
  }

  lemma More(joinable: bool, run: seq<Action>, s: State, a: Action) returns (run': seq<Action>, s': State)
    requires Exec(Init(joinable), run) == Some(s) && Enabled(s, a)
    ensures Exec(Init(joinable), run') == Some(s') && s' == Step(s, a)
  {
    ExecOneMore(Init(joinable), run, a);
    run', s' := run + [a], Step(s, a);
  }

  /** A thread that finds nobody in its way goes through destroy(). */
  lemma Depart(joinable: bool, run: seq<Action>, s: State, who: Who) returns (run': seq<Action>, s': State)
    requires Exec(Init(joinable), run) == Some(s) && LeavingOf(s, who).Testing? && s.d.refs > 0 && s.d.mutex.None?
    ensures Exec(Init(joinable), run') == Some(s') && LeavingOf(s', who).Left? && s'.d == s.d.(refs := s.d.refs - 1)
    ensures s'.h.started == s.h.started && s'.h.runnableFrees == s.h.runnableFrees && s'.h.runs == s.h.runs
    ensures if who.TheParent? then s'.child == s.child else s'.parent == s.parent
  {
    run', s' := More(joinable, run, s, DestroyStep(who));
    run', s' := More(joinable, run', s', DestroyStep(who));
    run', s' := More(joinable, run', s', DestroyStep(who));
    if !LeavingOf(s', who).Left? {
      run', s' := More(joinable, run', s', DestroyStep(who));
    }
  }

  lemma ChildInRun(joinable: bool) returns (run: seq<Action>, s: State)
    ensures Exec(Init(joinable), run) == Some(s)
    ensures s == State(joinable, Thread(Checking, Before, false), Thread(InRun, Before, false),
                       Delegate(true, joinable, 2, None), History(0, false, 1, 0, Unknown, None, false, false))
  {
    run, s := More(joinable, [], Init(joinable), Create(true));
    run, s := More(joinable, run, s, ChildStep(false));
    run, s := More(joinable, run, s, ChildStep(false));
    run, s := More(joinable, run, s, ChildStep(false));
    run, s := More(joinable, run, s, ChildStep(false));
  }

  lemma ChildRunsOnce(joinable: bool) returns (run: seq<Action>, s: State)
    ensures Exec(Init(joinable), run) == Some(s)
    ensures s == State(joinable, Thread(Checking, Before, false), Thread(Exiting, Testing, false),
                       Delegate(false, joinable, 2, None), History(0, false, 1, 1, Unknown, None, false, false))
  {
    run, s := ChildInRun(joinable);
    run, s := More(joinable, run, s, ChildStep(false));
    run, s := More(joinable, run, s, ChildStep(false));
    run, s := More(joinable, run, s, ChildStep(false));
    run, s := More(joinable, run, s, ChildStep(false));
  }

  /** start() returns false although the thread ran, and the runnable is deleted. */
  lemma FastChildFailsStart(joinable: bool) returns (run: seq<Action>, s: State)
    ensures Exec(Init(joinable), run) == Some(s) && AllLeft(s)
    ensures s.h.started.Refused? && s.h.runs == 1 && s.h.runnableFrees == 1
  {
    run, s := ChildRunsOnce(joinable);
    run, s := Depart(joinable, run, s, TheChild);
    run, s := More(joinable, run, s, ParentStep);
    run, s := Depart(joinable, run, s, TheParent);
  }

  /** stop() has reset mRunnable before the child reads it. */
  lemma StoppedEarly(joinable: bool) returns (run: seq<Action>, s: State)
    ensures Exec(Init(joinable), run) == Some(s)
    ensures s == State(joinable, Thread(StopJoin, Before, false), Thread(Reading, Before, false),
                       Delegate(false, joinable, 2, None), History(0, false, 0, 0, Succeeded, Some(0), false, false))
  {
    run, s := More(joinable, [], Init(joinable), Create(true));
    run, s := More(joinable, run, s, ParentStep);
    run, s := More(joinable, run, s, CallStop);
    run, s := More(joinable, run, s, ParentStep);
    run, s := More(joinable, run, s, ParentStep);
  }

  lemma ChildGone(joinable: bool) returns (run: seq<Action>, s: State)
    ensures Exec(Init(joinable), run) == Some(s)
    ensures s.parent == Thread(StopJoin, Before, false) && s.child.leaving.Left?
    ensures s.d == Delegate(false, joinable, 1, None)
    ensures s.h.started.Succeeded? && s.h.runs == 0 && s.h.runnableFrees == 0
  {
    run, s := StoppedEarly(joinable);
    run, s := More(joinable, run, s, ChildStep(false));
    run, s := Depart(joinable, run, s, TheChild);
  }

  /** start() returns true, and the runnable is never deleted. */
  lemma EarlyStopKeepsRunnable(joinable: bool) returns (run: seq<Action>, s: State)
    ensures Exec(Init(joinable), run) == Some(s) && AllLeft(s)
    ensures s.h.started.Succeeded? && s.h.runs == 0 && s.h.runnableFrees == 0
  {
    run, s := ChildGone(joinable);
    run, s := More(joinable, run, s, ParentStep);
    if joinable {
      run, s := More(joinable, run, s, ParentStep);
    }
    run, s := Depart(joinable, run, s, TheParent);
  }
}
