/**
 `drive_scope` against pushes from any threads, as a step machine: registering the
 waker, taking the inbox, polling the active set and the final check are atomic
 actions of the driver, and a push and the wake after it are two actions of the
 pushing thread.
 */
module ScopeProtocol {

  type Thread = nat
  type TaskId = nat

  /** `Resting(empty)` is between two polls of the scope; `empty` is the verdict
      `drive_scope` returned last. */
  datatype Pc =
    | Resting(empty: bool)
    | RegisterFirst
    | TakeInbox
    | PollNext
    | RegisterLast(none: bool)
    | CheckInbox(none: bool)

  datatype State = State(
    pc: Pc,
    inbox: seq<TaskId>,
    active: multiset<TaskId>,
    registered: bool,      // the scope's slot holds the driver's waker
    driverWoken: bool,     // it has fired since the driver last started
    pushing: set<Thread>,  // threads between their push and their wake
    progress: bool,        // a task has completed since the driver last started
    before: multiset<TaskId>,  // completed when the driver last started
    pushed: multiset<TaskId>,
    completed: multiset<TaskId>)

  const INIT: State :=
    State(Resting(true), [], multiset{}, false, true, {}, false, multiset{}, multiset{}, multiset{})

  datatype Step =
    | Start(spurious: bool)
    | Drive
    | Completes(task: TaskId)
    | NothingReady
    | Push(thread: Thread, task: TaskId)
    | PushWake(thread: Thread)
    | ChildWake

  predicate Enabled(s: State, step: Step) {
    match step
    case Start(spurious) => s.pc.Resting? && (s.driverWoken || spurious)
    case Drive => !s.pc.Resting? && !s.pc.PollNext?
    case Completes(t) => s.pc.PollNext? && t in s.active
    case NothingReady => s.pc.PollNext?
    case Push(th, _) => th !in s.pushing
    case PushWake(th) => th in s.pushing
    case ChildWake => true
  }

  function DriveStep(s: State): State
    requires Enabled(s, Drive)
  {
    match s.pc
    case RegisterFirst => s.(pc := TakeInbox, registered := true)
    case TakeInbox => s.(pc := PollNext, active := s.active + multiset(s.inbox), inbox := [])
    case RegisterLast(none) => s.(pc := CheckInbox(none), registered := true)
    case CheckInbox(none) => s.(pc := if s.inbox == [] then Resting(none) else RegisterFirst)
  }

  function Apply(s: State, step: Step): State
    requires Enabled(s, step)
  {
    match step
    case Start(_) => s.(pc := RegisterFirst, driverWoken := false, progress := false, before := s.completed)
    case Drive => DriveStep(s)
    case Completes(t) =>
      s.(pc := RegisterFirst, progress := true,
         active := s.active - multiset{t}, completed := s.completed + multiset{t})
    case NothingReady => s.(pc := RegisterLast(s.active == multiset{}))
    case Push(th, t) =>
      s.(inbox := s.inbox + [t], pushing := s.pushing + {th}, pushed := s.pushed + multiset{t})
    case PushWake(th) =>
      s.(pushing := s.pushing - {th}, registered := false, driverWoken := s.driverWoken || s.registered)
    case ChildWake => s.(driverWoken := true)
  }

  /** Every pushed task is in the inbox, active or completed. */
  ghost predicate Conserved(s: State) {
    multiset(s.inbox) + s.active + s.completed == s.pushed
  }

  /** A verdict under way is about the active set as it is; once the driver has
      registered for the last time, it stays registered or is woken. */
  ghost predicate Armed(s: State) {
    && (s.pc.RegisterLast? || s.pc.CheckInbox? ==> (s.pc.none <==> s.active == multiset{}))
    && (s.pc.Resting? ==> (s.pc.empty <==> s.active == multiset{}))
    && (s.pc.CheckInbox? || s.pc.Resting? ==> s.registered || s.driverWoken)
    && (s.pc.Resting? && s.inbox != [] && !s.driverWoken ==> s.pushing != {})
  }

  ghost predicate ProgressOk(s: State) {
    s.before <= s.completed && (s.progress <==> s.completed != s.before)
  }

  ghost predicate Inv(s: State) {
    Conserved(s) && Armed(s) && ProgressOk(s)
  }

  ghost predicate Reaches(steps: seq<Step>, s: State)
    decreases |steps|
  {
    if steps == [] then s == INIT
    else
      var last := |steps| - 1;
      exists earlier :: Reaches(steps[..last], earlier) && Enabled(earlier, steps[last])
                        && s == Apply(earlier, steps[last])
  }

  lemma ConservedPreserved(s: State, step: Step)
    requires Conserved(s) && Enabled(s, step)
    ensures Conserved(Apply(s, step))
  {
    var t := Apply(s, step);
    match step
    case Push(_, task) => PushConserves(s.inbox, s.active, s.completed, task);
    case Completes(task) => CompletionConserves(multiset(s.inbox), s.active, s.completed, task);
    case Drive => DriveConserves(s);
    case _ =>
  }

  lemma DriveConserves(s: State)
    requires Enabled(s, Drive)
    ensures var t := Apply(s, Drive);
      multiset(t.inbox) + t.active == multiset(s.inbox) + s.active && t.completed == s.completed && t.pushed == s.pushed
  {
    if s.pc.TakeInbox? {
      assert multiset([]) + (s.active + multiset(s.inbox)) == multiset(s.inbox) + s.active;
    }
  }

  lemma PushConserves(inbox: seq<TaskId>, active: multiset<TaskId>, completed: multiset<TaskId>, task: TaskId)
    ensures multiset(inbox + [task]) + active + completed
         == multiset(inbox) + active + completed + multiset{task}
  {
    assert multiset(inbox + [task]) == multiset(inbox) + multiset{task};
  }

  lemma CompletionConserves(inbox: multiset<TaskId>, active: multiset<TaskId>, completed: multiset<TaskId>,
                            task: TaskId)
    requires task in active
    ensures inbox + (active - multiset{task}) + (completed + multiset{task}) == inbox + active + completed
  {
    assert active == (active - multiset{task}) + multiset{task};
  }

  lemma ProgressPreserved(s: State, step: Step)
    requires ProgressOk(s) && Enabled(s, step)
    ensures ProgressOk(Apply(s, step))
  {
    if step.Completes? {
      assert Apply(s, step).completed[step.task] == s.completed[step.task] + 1;
    }
  }

  lemma ArmedPreserved(s: State, step: Step)
    requires Armed(s) && Enabled(s, step)
    ensures Armed(Apply(s, step))
  {
  }

  lemma InvPreserved(s: State, step: Step)
    requires Inv(s) && Enabled(s, step)
    ensures Inv(Apply(s, step))
  {
    ConservedPreserved(s, step);
    ArmedPreserved(s, step);
    ProgressPreserved(s, step);
  }

  lemma {:induction false} ReachableInv(steps: seq<Step>, s: State)
    requires Reaches(steps, s)
    ensures Inv(s)
    decreases |steps|
  {
    if steps != [] {
      var last := |steps| - 1;
      var earlier :| Reaches(steps[..last], earlier) && Enabled(earlier, steps[last])
                     && s == Apply(earlier, steps[last]);
      ReachableInv(steps[..last], earlier);
      InvPreserved(earlier, steps[last]);
    }
  }

  /** While the scope rests unwoken, the driver is registered, so the wake of any
      push reaches it; and a task can only be in the inbox if the thread that pushed
      it has yet to fire that wake. */
  lemma NoPushMissed(steps: seq<Step>, s: State)
    requires Reaches(steps, s) && s.pc.Resting? && !s.driverWoken
    ensures s.registered
    ensures s.inbox == [] || s.pushing != {}
    ensures forall th | th in s.pushing :: Apply(s, PushWake(th)).driverWoken
  {
    ReachableInv(steps, s);
  }

  /** The waker of a task, and the wake of any push, lets a resting driver start again. */
  lemma WakesStartDriver(steps: seq<Step>, s: State, th: Thread)
    requires Reaches(steps, s) && s.pc.Resting?
    ensures Enabled(Apply(s, ChildWake), Start(false))
    ensures th in s.pushing ==> Enabled(Apply(s, PushWake(th)), Start(false))
  {
    ReachableInv(steps, s);
  }

  /** The step with which `drive_scope` returns: its verdict is exact at that moment,
      for everything pushed so far, and so is what it says about progress. */
  lemma VerdictExact(steps: seq<Step>, s: State)
    requires Reaches(steps, s) && s.pc.CheckInbox? && Apply(s, Drive).pc.Resting?
    ensures Apply(s, Drive).pc.empty <==> s.completed == s.pushed
    ensures s.progress <==> s.completed != s.before
    ensures s.registered || s.driverWoken
  {
    ReachableInv(steps, s);
    assert |s.pushed| == |multiset(s.inbox)| + |s.active| + |s.completed|;
  }

  // ----- The driver comes to an end -----

  /** What a driver's action does at each point: it registers before it looks, takes the whole
      inbox into the active set, and returns exactly if the inbox is still empty at the last
      check. */
  lemma DriverActs(s: State)
    requires Enabled(s, Drive)
    ensures var t := Apply(s, Drive);
      && (s.pc.RegisterFirst? ==> t.pc.TakeInbox? && t.registered)
      && (s.pc.TakeInbox? ==> t.pc.PollNext? && t.inbox == [] && t.active == s.active + multiset(s.inbox))
      && (s.pc.RegisterLast? ==> t.pc == CheckInbox(s.pc.none) && t.registered)
      && (s.pc.CheckInbox? ==> t.pc == if s.inbox == [] then Resting(s.pc.none) else RegisterFirst)
  {
  }

  /** A driver that finds nothing more to poll, and is not disturbed by pushes, returns after
      two more actions; wakes may come in between. */
  lemma QuietDriverReturns(steps: seq<Step>, s: State, wakes: bool)
    requires Reaches(steps, s) && s.pc.PollNext? && s.inbox == []
    ensures var s1 := Apply(s, NothingReady);
            var s2 := if wakes then Apply(s1, ChildWake) else s1;
            && Enabled(s2, Drive)
            && var s3 := Apply(s2, Drive);
               Enabled(s3, Drive) && Apply(s3, Drive).pc == Resting(s.active == multiset{})
  {
    ReachableInv(steps, s);
  }

  lemma OneStep(steps: seq<Step>, s: State, step: Step) returns (more: seq<Step>, t: State)
    requires Reaches(steps, s) && Enabled(s, step)
    ensures t == Apply(s, step) && Reaches(more, t)
  {
    more, t := steps + [step], Apply(s, step);
    assert more[..|more| - 1] == steps && more[|more| - 1] == step;
    assert Reaches(more[..|more| - 1], s);
  }

  /** Rest does happen: a scope with a completed, an active and a just pushed task, unwoken. */
  lemma RestHappens() returns (steps: seq<Step>, s: State)
    ensures Reaches(steps, s) && s.pc == Resting(false) && !s.driverWoken && s.registered
    ensures s.active == multiset{7} && s.completed == multiset{6} && s.inbox == [8] && s.pushing == {2}
  {
    hide Reaches;
    steps, s := TwoActive();
    steps, s := OneStep(steps, s, Completes(6));
    assert s.active == multiset{7} && s.completed == multiset{6};
    steps, s := OneStep(steps, s, Drive);
    steps, s := OneStep(steps, s, Drive);
    assert s.active == multiset{7} && s.inbox == [] && s.pc.PollNext?;
    steps, s := Rests(steps, s);
    steps, s := OneStep(steps, s, Push(2, 8));
  }

  lemma Rests(steps: seq<Step>, s: State) returns (more: seq<Step>, t: State)
    requires Reaches(steps, s) && s.pc.PollNext? && s.inbox == [] && s.active != multiset{}
    ensures Reaches(more, t) && t == s.(pc := Resting(false), registered := true)
  {
    hide Reaches;
    more, t := OneStep(steps, s, NothingReady);
    more, t := OneStep(more, t, Drive);
    more, t := OneStep(more, t, Drive);
  }

  lemma TwoActive() returns (steps: seq<Step>, s: State)
    ensures Reaches(steps, s) && s.pc.PollNext? && s.inbox == [] && s.active == multiset{6, 7}
    ensures s.completed == multiset{} && s.pushing == {} && !s.driverWoken && s.registered
  {
    hide Reaches;
    steps, s := TwoPushed();
    steps, s := OneStep(steps, s, Start(false));
    steps, s := OneStep(steps, s, Drive);
    assert multiset([6, 7]) == multiset{6, 7};
    steps, s := OneStep(steps, s, Drive);
  }

  lemma TwoPushed() returns (steps: seq<Step>, s: State)
    ensures Reaches(steps, s) && s.pc.Resting? && s.inbox == [6, 7] && s.active == multiset{}
    ensures s.completed == multiset{} && s.pushing == {} && s.driverWoken
  {
    assert Reaches([], INIT);
    steps, s := PushedAlone([], INIT, 6);
    steps, s := PushedAlone(steps, s, 7);
  }

  /** A push and its wake. */
  lemma PushedAlone(steps: seq<Step>, s: State, task: TaskId) returns (more: seq<Step>, t: State)
    requires Reaches(steps, s) && s.pushing == {} && s.driverWoken
    ensures Reaches(more, t)
    ensures t == s.(inbox := s.inbox + [task], pushed := s.pushed + multiset{task}, registered := false)
  {
    hide Reaches;
    more, t := OneStep(steps, s, Push(2, task));
    assert s.pushing + {2} - {2} == s.pushing;
    more, t := OneStep(more, t, PushWake(2));
  }
}
