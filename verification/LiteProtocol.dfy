/**
 The park/wake protocol of the lite executor as a step machine.

 Any number of threads may call `block_on`, `spawn`, or a task's waker. Every
 atomic action of the source (a compare-and-swap, a locked queue access, an
 `AtomicWaker` register or wake, an unpark) is one step, and steps of different
 threads interleave freely.
 */
module LiteProtocol {
  import opened Vectors

  type Thread = nat
  type TaskId = nat

  /** The slot of the executor's `AtomicWaker`. */
  datatype Slot = Vacant | Registered(thread: Thread)

  /** Where a thread that won the compare-and-swap stands inside `block_on`. */
  datatype Pc =
    | RegisterFirst
    | TakeFirst
    | PollMain
    | InMain
    | PassAt(index: nat, progress: bool)
    | InTask(index: nat, progress: bool)
    | TakeSecond(progress: bool)
    | RegisterSecond
    | TakeThird
    | Parked
    | ReturnTasks
    | ClearFlag

  /** One activation of `block_on`: its position, the active list, and whether
      the main future was woken since its latest poll began. */
  datatype Frame = Frame(pc: Pc, active: seq<TaskId>, mainNotified: bool)

  datatype State = State(
    queue: seq<TaskId>,
    slot: Slot,
    driving: bool,
    frames: map<Thread, Frame>,
    tokens: set<Thread>,            // threads holding an unpark token
    spawning: set<Thread>,          // threads between their push and their wake
    polledBy: map<TaskId, Thread>,  // whose waker the latest poll handed the task
    notified: set<TaskId>,          // tasks woken since their latest poll began
    spawned: multiset<TaskId>,
    completed: multiset<TaskId>)

  datatype Outcome = Pending | Ready | Panicked

  datatype Step =
    | Enter(thread: Thread)
    | Drive(thread: Thread)
    | PollReturns(thread: Thread, outcome: Outcome)
    | ParkReturns(thread: Thread, spurious: bool)
    | SpawnPush(thread: Thread, task: TaskId)
    | SpawnWake(thread: Thread)
    | WakeTask(task: TaskId)
    | WakeMain(thread: Thread)
    | Unpark(thread: Thread)

  const INIT: State :=
    State([], Vacant, false, map[], {}, {}, map[], {}, multiset{}, multiset{})

  predicate InPoll(pc: Pc) {
    pc.InMain? || pc.InTask?
  }

  /** Where code of the user runs on the driving thread: in a poll, and in the drop of the
      main future, which comes between those of the active list and of the flag. */
  predicate RunsCode(pc: Pc) {
    InPoll(pc) || pc.ClearFlag?
  }

  // ----- The steps -----

  predicate Enabled(s: State, step: Step) {
    match step
    case Enter(th) => th !in s.spawning
    case Drive(d) =>
      && d in s.frames && !InPoll(s.frames[d].pc) && !s.frames[d].pc.Parked? && d !in s.spawning
      && (s.frames[d].pc.PassAt? ==> s.frames[d].pc.index <= |s.frames[d].active|)
    case PollReturns(d, outcome) =>
      && d in s.frames && InPoll(s.frames[d].pc) && d !in s.spawning
      && (s.frames[d].pc.InTask? ==> s.frames[d].pc.index < |s.frames[d].active|)
    case ParkReturns(d, spurious) =>
      d in s.frames && s.frames[d].pc.Parked? && (d in s.tokens || spurious)
    case SpawnPush(th, t) =>
      && th !in s.spawning && t !in s.spawned
      && (th in s.frames ==> RunsCode(s.frames[th].pc))
    case SpawnWake(th) => th in s.spawning
    case WakeTask(t) => t in s.polledBy
    case WakeMain(d) => d in s.frames
    case Unpark(th) => true
  }

  function At(s: State, d: Thread, pc: Pc): State
    requires d in s.frames
  {
    s.(frames := s.frames[d := s.frames[d].(pc := pc)])
  }

  /** `take_queued_tasks`: moves the whole queue behind the active list. */
  function Take(s: State, d: Thread): State
    requires d in s.frames
  {
    s.(queue := [], frames := s.frames[d := s.frames[d].(active := s.frames[d].active + s.queue)])
  }

  /** One step of the driving thread outside any poll. */
  function DriveStep(s: State, d: Thread): State
    requires Enabled(s, Drive(d))
  {
    var f := s.frames[d];
    match f.pc
    case RegisterFirst => At(s, d, TakeFirst).(slot := Registered(d))
    case TakeFirst => At(Take(s, d), d, PollMain)
    case PollMain => s.(frames := s.frames[d := f.(pc := InMain, mainNotified := false)])
    case PassAt(i, progress) =>
      if i < |f.active| then
        At(s, d, InTask(i, progress))
        .(polledBy := s.polledBy[f.active[i] := d], notified := s.notified - {f.active[i]})
      else At(s, d, TakeSecond(progress))
    case TakeSecond(progress) =>
      At(Take(s, d), d, if s.queue != [] || progress then RegisterFirst else RegisterSecond)
    case RegisterSecond => At(s, d, TakeThird).(slot := Registered(d))
    case TakeThird => At(Take(s, d), d, if s.queue != [] then RegisterFirst else Parked)
    case ReturnTasks =>
      s.(queue := s.queue + f.active, frames := s.frames[d := f.(pc := ClearFlag, active := [])])
    case ClearFlag => s.(driving := false, frames := s.frames - {d})
  }

  /** The polled future returns; a panic leaves a task in the active list. */
  function PollReturnsStep(s: State, d: Thread, outcome: Outcome): State
    requires Enabled(s, PollReturns(d, outcome))
  {
    var f := s.frames[d];
    match outcome
    case Panicked => At(s, d, ReturnTasks)
    case Pending =>
      At(s, d, if f.pc.InMain? then PassAt(0, false) else PassAt(f.pc.index + 1, f.pc.progress))
    case Ready =>
      if f.pc.InMain? then At(s, d, ReturnTasks)
      else
        var i := f.pc.index;
        s.(frames := s.frames[d := f.(pc := PassAt(i, true), active := SwapRemove(f.active, i))],
           completed := s.completed + multiset{f.active[i]})
  }

  /** `AtomicWaker::wake`: empties the slot and unparks the thread it held. */
  function TakeAndWake(s: State): State {
    match s.slot
    case Vacant => s
    case Registered(d) => s.(slot := Vacant, tokens := s.tokens + {d})
  }

  function Apply(s: State, step: Step): State
    requires Enabled(s, step)
  {
    match step
    case Enter(th) =>
      if s.driving then s
      else s.(driving := true, frames := s.frames[th := Frame(RegisterFirst, [], false)])
    case Drive(d) => DriveStep(s, d)
    case PollReturns(d, outcome) => PollReturnsStep(s, d, outcome)
    case ParkReturns(d, _) => At(s, d, RegisterFirst).(tokens := s.tokens - {d})
    case SpawnPush(th, t) =>
      s.(queue := s.queue + [t], spawning := s.spawning + {th}, spawned := s.spawned + multiset{t})
    case SpawnWake(th) => TakeAndWake(s).(spawning := s.spawning - {th})
    case WakeTask(t) => s.(tokens := s.tokens + {s.polledBy[t]}, notified := s.notified + {t})
    case WakeMain(d) =>
      s.(tokens := s.tokens + {d}, frames := s.frames[d := s.frames[d].(mainNotified := true)])
    case Unpark(th) => s.(tokens := s.tokens + {th})
  }

  // ----- What every reachable state satisfies -----

  /** At most one thread is past the compare-and-swap, and the flag says so. */
  ghost predicate Exclusive(s: State) {
    && (s.driving <==> s.frames != map[])
    && (forall a, b | a in s.frames && b in s.frames :: a == b)
  }

  /** Everything a driver's position promises about its own frame. */
  ghost predicate FrameOk(s: State, d: Thread, f: Frame) {
    && (d in s.spawning ==> RunsCode(f.pc))
    && (f.pc.PassAt? ==> f.pc.index <= |f.active|)
    && (f.pc.InTask? ==> f.pc.index < |f.active|)
    && (f.pc.ClearFlag? ==> f.active == [])
  }

  /** Every task ever spawned is queued, active or completed, once. */
  ghost predicate Conserved(s: State) {
    && (s.frames == map[] ==> multiset(s.queue) + s.completed == s.spawned)
    && (forall d | d in s.frames ::
          multiset(s.queue) + multiset(s.frames[d].active) + s.completed == s.spawned)
    && (forall t :: s.spawned[t] <= 1)
  }

  /** The tasks before `n` hold d's waker and any wake since left d a token. */
  ghost predicate PolledUpTo(s: State, d: Thread, active: seq<TaskId>, n: nat) {
    forall j | 0 <= j < n && j < |active| ::
      && active[j] in s.polledBy && s.polledBy[active[j]] == d
      && (active[j] in s.notified ==> d in s.tokens)
  }

  /** How many tasks of the current pass have been polled already. */
  function PolledCount(f: Frame): nat {
    match f.pc
    case PassAt(i, _) => i
    case InTask(i, _) => i + 1
    case TakeSecond(progress) => if progress then 0 else |f.active|
    case RegisterSecond => |f.active|
    case TakeThird => |f.active|
    case Parked => |f.active|
    case _ => 0
  }

  predicate MainPolled(pc: Pc) {
    !(pc.RegisterFirst? || pc.TakeFirst? || pc.PollMain? || pc.ReturnTasks? || pc.ClearFlag?)
  }

  /** The handshake that lets the driver sleep. */
  ghost predicate Armed(s: State, d: Thread, f: Frame) {
    && PolledUpTo(s, d, f.active, PolledCount(f))
    && (MainPolled(f.pc) && f.mainNotified ==> d in s.tokens)
    && (f.pc.TakeThird? || f.pc.Parked? ==> d in s.tokens || s.slot == Registered(d))
    && (f.pc.Parked? && d !in s.tokens && s.queue != [] ==> s.spawning != {})
  }

  ghost predicate Inv(s: State) {
    && Exclusive(s)
    && Conserved(s)
    && (forall d | d in s.frames :: FrameOk(s, d, s.frames[d]))
    && (forall d | d in s.frames :: Armed(s, d, s.frames[d]))
  }

  // ----- Preservation -----

  /** A thread that drives is the only one. */
  lemma Alone(s: State, d: Thread)
    requires Exclusive(s) && d in s.frames
    ensures s.frames == map[d := s.frames[d]] && s.frames.Keys == {d} && s.driving
  {
    assert forall th | th in s.frames :: th == d;
  }

  /** What has to be shown after a step of, or beside, the driver `d`. */
  lemma SingleFrame(s: State, d: Thread)
    requires s.frames.Keys == {d} && s.driving
    requires FrameOk(s, d, s.frames[d]) && Armed(s, d, s.frames[d])
    requires multiset(s.queue) + multiset(s.frames[d].active) + s.completed == s.spawned
    requires forall t :: s.spawned[t] <= 1
    ensures Inv(s)
  {
    assert d in s.frames;
  }

  lemma TakeKeepsTasks(s: State, d: Thread)
    requires d in s.frames
    ensures multiset(Take(s, d).queue) + multiset(Take(s, d).frames[d].active)
         == multiset(s.queue) + multiset(s.frames[d].active)
  {
  }

  lemma TakeOfEmptyQueue(s: State, d: Thread)
    requires d in s.frames && s.queue == []
    ensures Take(s, d) == s
  {
    assert s.frames[d].active + s.queue == s.frames[d].active;
    assert s.frames[d := s.frames[d]] == s.frames;
  }

  lemma RegisterKeepsInv(s: State, d: Thread)
    requires Inv(s) && Enabled(s, Drive(d)) && (s.frames[d].pc.RegisterFirst? || s.frames[d].pc.RegisterSecond?)
    ensures Inv(DriveStep(s, d))
  {
    Alone(s, d);
    var s' := DriveStep(s, d);
    assert s'.frames.Keys == {d};
    SingleFrame(s', d);
  }

  lemma TakeFirstKeepsInv(s: State, d: Thread)
    requires Inv(s) && Enabled(s, Drive(d)) && s.frames[d].pc.TakeFirst?
    ensures Inv(DriveStep(s, d))
  {
    Alone(s, d);
    TakeKeepsTasks(s, d);
    var s' := DriveStep(s, d);
    assert s'.frames.Keys == {d};
    SingleFrame(s', d);
  }

  /** A take that found tasks sends the driver round its loop again. */
  lemma TakeSomeKeepsInv(s: State, d: Thread)
    requires Inv(s) && d in s.frames && !RunsCode(s.frames[d].pc)
    ensures Inv(At(Take(s, d), d, RegisterFirst))
  {
    Alone(s, d);
    TakeKeepsTasks(s, d);
    var s' := At(Take(s, d), d, RegisterFirst);
    assert s'.frames.Keys == {d};
    SingleFrame(s', d);
  }

  lemma TakeSecondKeepsInv(s: State, d: Thread)
    requires Inv(s) && Enabled(s, Drive(d)) && s.frames[d].pc.TakeSecond?
    ensures Inv(DriveStep(s, d))
  {
    if s.queue != [] || s.frames[d].pc.progress {
      TakeSomeKeepsInv(s, d);
    } else {
      Alone(s, d);
      TakeOfEmptyQueue(s, d);
      var s' := At(s, d, RegisterSecond);
      assert s'.frames.Keys == {d};
      SingleFrame(s', d);
    }
  }

  lemma TakeThirdKeepsInv(s: State, d: Thread)
    requires Inv(s) && Enabled(s, Drive(d)) && s.frames[d].pc.TakeThird?
    ensures Inv(DriveStep(s, d))
  {
    if s.queue != [] {
      TakeSomeKeepsInv(s, d);
    } else {
      Alone(s, d);
      TakeOfEmptyQueue(s, d);
      var s' := At(s, d, Parked);
      assert s'.frames.Keys == {d};
      SingleFrame(s', d);
    }
  }

  lemma PollMainKeepsInv(s: State, d: Thread)
    requires Inv(s) && Enabled(s, Drive(d)) && s.frames[d].pc.PollMain?
    ensures Inv(DriveStep(s, d))
  {
    Alone(s, d);
    var s' := DriveStep(s, d);
    assert s'.frames.Keys == {d};
    SingleFrame(s', d);
  }

  lemma PassKeepsInv(s: State, d: Thread)
    requires Inv(s) && Enabled(s, Drive(d)) && s.frames[d].pc.PassAt?
    ensures Inv(DriveStep(s, d))
  {
    Alone(s, d);
    var s' := DriveStep(s, d);
    assert s'.frames.Keys == {d};
    SingleFrame(s', d);
  }

  lemma ReturnTasksKeepsInv(s: State, d: Thread)
    requires Inv(s) && Enabled(s, Drive(d)) && s.frames[d].pc.ReturnTasks?
    ensures Inv(DriveStep(s, d))
  {
    Alone(s, d);
    var s' := DriveStep(s, d);
    assert s'.frames.Keys == {d};
    SingleFrame(s', d);
  }

  lemma ClearFlagKeepsInv(s: State, d: Thread)
    requires Inv(s) && Enabled(s, Drive(d)) && s.frames[d].pc.ClearFlag?
    ensures Inv(DriveStep(s, d))
  {
    Alone(s, d);
    assert DriveStep(s, d).frames == map[];
  }

  lemma DriveKeepsInv(s: State, d: Thread)
    requires Inv(s) && Enabled(s, Drive(d))
    ensures Inv(DriveStep(s, d))
  {
    match s.frames[d].pc
    case RegisterFirst => RegisterKeepsInv(s, d);
    case RegisterSecond => RegisterKeepsInv(s, d);
    case TakeFirst => TakeFirstKeepsInv(s, d);
    case TakeSecond(_) => TakeSecondKeepsInv(s, d);
    case TakeThird => TakeThirdKeepsInv(s, d);
    case PollMain => PollMainKeepsInv(s, d);
    case PassAt(_, _) => PassKeepsInv(s, d);
    case ReturnTasks => ReturnTasksKeepsInv(s, d);
    case ClearFlag => ClearFlagKeepsInv(s, d);
  }

  lemma PendingKeepsInv(s: State, d: Thread)
    requires Inv(s) && Enabled(s, PollReturns(d, Pending))
    ensures Inv(PollReturnsStep(s, d, Pending))
  {
    Alone(s, d);
    var s' := PollReturnsStep(s, d, Pending);
    assert s'.frames.Keys == {d};
    SingleFrame(s', d);
  }

  lemma MainReadyKeepsInv(s: State, d: Thread)
    requires Inv(s) && Enabled(s, PollReturns(d, Ready)) && s.frames[d].pc.InMain?
    ensures Inv(PollReturnsStep(s, d, Ready))
  {
    Alone(s, d);
    var s' := PollReturnsStep(s, d, Ready);
    assert s'.frames.Keys == {d};
    SingleFrame(s', d);
  }

  /** `swap_remove` keeps the part of the list this pass has already polled. */
  lemma SwapRemoveKeepsPolled(s: State, d: Thread, active: seq<TaskId>, i: nat)
    requires i < |active| && PolledUpTo(s, d, active, i + 1)
    ensures PolledUpTo(s, d, SwapRemove(active, i), i)
  {
    var r := SwapRemove(active, i);
    forall j | 0 <= j < i && j < |r|
      ensures r[j] == active[j]
    {
      assert r[j] == r[..i][j];
    }
  }

  lemma RemovalConserves(queue: multiset<TaskId>, active: seq<TaskId>, i: nat,
                         completed: multiset<TaskId>, spawned: multiset<TaskId>)
    requires i < |active| && queue + multiset(active) + completed == spawned
    ensures queue + multiset(SwapRemove(active, i)) + (completed + multiset{active[i]}) == spawned
  {
  }

  lemma TaskReadyArmed(s: State, d: Thread)
    requires Inv(s) && Enabled(s, PollReturns(d, Ready)) && s.frames[d].pc.InTask?
    ensures var s' := PollReturnsStep(s, d, Ready); Armed(s', d, s'.frames[d])
  {
    var f, s' := s.frames[d], PollReturnsStep(s, d, Ready);
    var rest := SwapRemove(f.active, f.pc.index);
    SwapRemoveKeepsPolled(s, d, f.active, f.pc.index);
    SamePolledUpTo(s, s', d, rest, f.pc.index);
    assert s'.frames[d] == Frame(PassAt(f.pc.index, true), rest, f.mainNotified);
  }

  lemma SamePolledUpTo(s: State, s': State, d: Thread, active: seq<TaskId>, n: nat)
    requires PolledUpTo(s, d, active, n)
    requires s'.tokens == s.tokens && s'.polledBy == s.polledBy && s'.notified == s.notified
    ensures PolledUpTo(s', d, active, n)
  {
  }

  lemma TaskReadyKeepsInv(s: State, d: Thread)
    requires Inv(s) && Enabled(s, PollReturns(d, Ready)) && s.frames[d].pc.InTask?
    ensures Inv(PollReturnsStep(s, d, Ready))
  {
    Alone(s, d);
    var f := s.frames[d];
    RemovalConserves(multiset(s.queue), f.active, f.pc.index, s.completed, s.spawned);
    TaskReadyArmed(s, d);
    var s' := PollReturnsStep(s, d, Ready);
    assert s'.frames.Keys == {d};
    SingleFrame(s', d);
  }

  lemma PanickedKeepsInv(s: State, d: Thread)
    requires Inv(s) && Enabled(s, PollReturns(d, Panicked))
    ensures Inv(PollReturnsStep(s, d, Panicked))
  {
    Alone(s, d);
    var s' := PollReturnsStep(s, d, Panicked);
    assert s'.frames.Keys == {d};
    SingleFrame(s', d);
  }

  lemma ParkReturnsKeepsInv(s: State, th: Thread, spurious: bool)
    requires Inv(s) && Enabled(s, ParkReturns(th, spurious))
    ensures Inv(Apply(s, ParkReturns(th, spurious)))
  {
    var s' := Apply(s, ParkReturns(th, spurious));
    Alone(s, th);
    SingleFrame(s', th);
  }

  lemma EnterKeepsInv(s: State, th: Thread)
    requires Inv(s) && Enabled(s, Enter(th))
    ensures Inv(Apply(s, Enter(th)))
  {
    var s' := Apply(s, Enter(th));
    if !s.driving {
      assert s.frames == map[];
      assert s'.frames.Keys == {th};
      SingleFrame(s', th);
    }
  }

  lemma SpawnPushKeepsInv(s: State, th: Thread, t: TaskId)
    requires Inv(s) && Enabled(s, SpawnPush(th, t))
    ensures Inv(Apply(s, SpawnPush(th, t)))
  {
    var s' := Apply(s, SpawnPush(th, t));
    if d :| d in s.frames {
      Alone(s, d);
      SingleFrame(s', d);
    } else {
      assert s.frames == map[];
    }
  }

  lemma SpawnWakeKeepsInv(s: State, th: Thread)
    requires Inv(s) && Enabled(s, SpawnWake(th))
    ensures Inv(Apply(s, SpawnWake(th)))
  {
    var s' := Apply(s, SpawnWake(th));
    if d :| d in s.frames {
      Alone(s, d);
      assert s.tokens <= s'.tokens && s'.queue == s.queue && s'.frames == s.frames;
      assert PolledUpTo(s', d, s.frames[d].active, PolledCount(s.frames[d]));
      SingleFrame(s', d);
    } else {
      assert s.frames == map[];
    }
  }

  lemma WakeTaskKeepsInv(s: State, t: TaskId)
    requires Inv(s) && Enabled(s, WakeTask(t))
    ensures Inv(Apply(s, WakeTask(t)))
  {
    var s' := Apply(s, WakeTask(t));
    if d :| d in s.frames {
      Alone(s, d);
      SingleFrame(s', d);
    } else {
      assert s.frames == map[];
    }
  }

  lemma WakeMainKeepsInv(s: State, th: Thread)
    requires Inv(s) && Enabled(s, WakeMain(th))
    ensures Inv(Apply(s, WakeMain(th)))
  {
    var s' := Apply(s, WakeMain(th));
    Alone(s, th);
    SingleFrame(s', th);
  }

  lemma UnparkKeepsInv(s: State, th: Thread)
    requires Inv(s) && Enabled(s, Unpark(th))
    ensures Inv(Apply(s, Unpark(th)))
  {
    var s' := Apply(s, Unpark(th));
    if d :| d in s.frames {
      Alone(s, d);
      SingleFrame(s', d);
    } else {
      assert s.frames == map[];
    }
  }

  lemma InvPreserved(s: State, step: Step)
    requires Inv(s) && Enabled(s, step)
    ensures Inv(Apply(s, step))
  {
    match step
    case Enter(th) => EnterKeepsInv(s, th);
    case Drive(d) => DriveKeepsInv(s, d);
    case PollReturns(d, Pending) => PendingKeepsInv(s, d);
    case PollReturns(d, Ready) =>
      if s.frames[d].pc.InMain? { MainReadyKeepsInv(s, d); } else { TaskReadyKeepsInv(s, d); }
    case PollReturns(d, Panicked) => PanickedKeepsInv(s, d);
    case ParkReturns(d, spurious) => ParkReturnsKeepsInv(s, d, spurious);
    case SpawnPush(th, t) => SpawnPushKeepsInv(s, th, t);
    case SpawnWake(th) => SpawnWakeKeepsInv(s, th);
    case WakeTask(t) => WakeTaskKeepsInv(s, t);
    case WakeMain(d) => WakeMainKeepsInv(s, d);
    case Unpark(th) => UnparkKeepsInv(s, th);
  }

  // ----- Runs -----

  /** Some interleaving of enabled steps leads from `start` to `s`. */
  ghost predicate Leads(start: State, steps: seq<Step>, s: State)
    decreases |steps|
  {
    if steps == [] then s == start
    else
      var last := |steps| - 1;
      exists before :: Leads(start, steps[..last], before) && Enabled(before, steps[last])
                       && s == Apply(before, steps[last])
  }

  ghost predicate Reaches(steps: seq<Step>, s: State) {
    Leads(INIT, steps, s)
  }

  lemma {:induction false} ReachableInv(steps: seq<Step>, s: State)
    requires Reaches(steps, s)
    ensures Inv(s)
    decreases |steps|
  {
    if steps != [] {
      var last := |steps| - 1;
      var before :| Leads(INIT, steps[..last], before) && Enabled(before, steps[last])
                    && s == Apply(before, steps[last]);
      ReachableInv(steps[..last], before);
      InvPreserved(before, steps[last]);
    }
  }

  // ----- Main results -----

  predicate Asleep(s: State, d: Thread) {
    d in s.frames && s.frames[d].pc.Parked? && d !in s.tokens
  }

  /** The driver never sleeps while there is work: whatever is active was polled
      with the sleeper's own waker and has not been woken since, and a task still
      in the queue belongs to another thread that has yet to fire the wake of its
      push, with the sleeper still registered to receive it. */
  lemma NoLostWakeup(steps: seq<Step>, s: State, d: Thread)
    requires Reaches(steps, s) && Asleep(s, d)
    ensures forall t | t in s.frames[d].active ::
              t in s.polledBy && s.polledBy[t] == d && t !in s.notified
    ensures !s.frames[d].mainNotified
    ensures s.slot == Registered(d)
    ensures s.queue == [] || exists th :: th in s.spawning && th != d
  {
    ReachableInv(steps, s);
    if s.queue != [] {
      var th :| th in s.spawning;
      assert th != d;
    }
  }

  /** Any of the events that bring work ends the sleep: the wake of a push, and
      the waker of an active task or of the main future. */
  lemma WorkEndsSleep(steps: seq<Step>, s: State, d: Thread, step: Step)
    requires Reaches(steps, s) && Asleep(s, d) && Enabled(s, step)
    requires step.SpawnWake? || (step.WakeTask? && step.task in s.frames[d].active)
             || step == WakeMain(d) || step == Unpark(d)
    ensures Enabled(Apply(s, step), ParkReturns(d, false))
  {
    NoLostWakeup(steps, s, d);
  }

  /** The actions of the driver `d` itself. */
  predicate IsOwn(step: Step, d: Thread) {
    (step.Drive? || step.PollReturns? || step.ParkReturns?) && step.thread == d
  }

  function Own(steps: seq<Step>, d: Thread): nat {
    if steps == [] then 0
    else Own(steps[..|steps| - 1], d) + if IsOwn(steps[|steps| - 1], d) then 1 else 0
  }

  /** Where a parked driver is after `n` of its own actions. */
  function AfterPark(n: nat): Pc {
    if n == 0 then Parked else if n == 1 then RegisterFirst else if n == 2 then TakeFirst else PollMain
  }

  /** A driver that was parked in `s` has come `n` actions further in `t`. */
  ghost predicate Catches(s: State, d: Thread, n: nat, t: State)
    requires d in s.frames
  {
    && t.driving && t.frames.Keys == {d} && t.frames[d].pc == AfterPark(n) && d !in t.spawning
    && (if n < 3 then t.frames[d].active == s.frames[d].active && s.queue <= t.queue
        else s.frames[d].active + s.queue <= t.frames[d].active)
    && (n >= 2 ==> t.slot == Registered(d) || d in t.tokens)
  }

  lemma CatchesOn(s: State, d: Thread, n: nat, t: State, step: Step)
    requires d in s.frames && Catches(s, d, n, t) && n <= 3 && Enabled(t, step)
    requires IsOwn(step, d) ==> n < 3
    ensures Catches(s, d, n + if IsOwn(step, d) then 1 else 0, Apply(t, step))
  {
    if IsOwn(step, d) && n == 2 {
      assert s.frames[d].active + s.queue <= t.frames[d].active + t.queue;
    }
  }

  /** A parked driver that goes on has everything that was queued behind its active list
      once it has acted three times, and no push since it registered passes it by,
      whatever other threads do in between. */
  lemma {:induction false} WokenDriverTakesQueue(s: State, d: Thread, steps: seq<Step>, t: State)
    requires Inv(s) && d in s.frames && s.frames[d].pc.Parked?
    requires Leads(s, steps, t) && Own(steps, d) <= 3
    ensures Catches(s, d, Own(steps, d), t)
    decreases |steps|
  {
    if steps == [] {
      Alone(s, d);
    } else {
      var last := |steps| - 1;
      var before :| Leads(s, steps[..last], before) && Enabled(before, steps[last])
                    && t == Apply(before, steps[last]);
      WokenDriverTakesQueue(s, d, steps[..last], before);
      CatchesOn(s, d, Own(steps[..last], d), before, steps[last]);
    }
  }

  /** No task is lost or duplicated by any interleaving of spawns, polls, normal
      returns, panics and refused second drivers; and as soon as nobody drives,
      every unfinished task is back in the queue. */
  lemma TasksConserved(steps: seq<Step>, s: State, t: TaskId)
    requires Reaches(steps, s) && t in s.spawned
    ensures !s.driving ==> multiset(s.queue)[t] + s.completed[t] == 1
    ensures forall d | d in s.frames ::
              multiset(s.queue)[t] + multiset(s.frames[d].active)[t] + s.completed[t] == 1
  {
    ReachableInv(steps, s);
  }

  /** Two threads are never both inside the driving section, and an entry that
      loses the compare-and-swap disturbs nobody. */
  lemma OneDriver(steps: seq<Step>, s: State, a: Thread, b: Thread)
    requires Reaches(steps, s) && a in s.frames
    ensures b in s.frames ==> a == b
    ensures s.driving && (Enabled(s, Enter(b)) ==> Apply(s, Enter(b)) == s)
  {
    ReachableInv(steps, s);
  }

  // ----- How `block_on` ends -----

  /** The poll that ends a call of `block_on`: the main future is ready, or any poll
      panics. */
  predicate EndsBlockOn(s: State, d: Thread, outcome: Outcome) {
    outcome.Panicked? || (outcome.Ready? && d in s.frames && s.frames[d].pc.InMain?)
  }

  /** The driver `d` ended its call in `s`, and has come `n` actions further in `t`. */
  ghost predicate Ends(s: State, d: Thread, n: nat, t: State)
    requires d in s.frames
  {
    if n == 0 then
      t.driving && t.frames.Keys == {d} && t.frames[d].pc.ReturnTasks? && t.frames[d].active == s.frames[d].active
    else if n == 1 then
      t.driving && t.frames.Keys == {d} && t.frames[d].pc.ClearFlag? &&
      multiset(s.frames[d].active) <= multiset(t.queue)
    else !t.driving && t.frames == map[] && multiset(s.frames[d].active) <= multiset(t.queue)
  }

  lemma EndsOn(s: State, d: Thread, n: nat, t: State, step: Step)
    requires d in s.frames && n < 2 && Ends(s, d, n, t) && Enabled(t, step)
    ensures Ends(s, d, n + if IsOwn(step, d) then 1 else 0, Apply(t, step))
  {
    match step
    case SpawnPush(_, task) =>
      assert multiset(t.queue + [task]) == multiset(t.queue) + multiset{task};
    case Drive(_) =>
      assert multiset(t.queue + t.frames[d].active) == multiset(t.queue) + multiset(t.frames[d].active);
      assert n == 1 ==> t.frames - {d} == map[];
    case _ =>
  }

  /** Once the main future is ready, or a poll has panicked, `block_on` returns: with
      whatever steps of other threads in between, the driver neither parks nor polls again,
      and two actions of its own later it drives no more and its tasks are in the queue. */
  lemma {:induction false} BlockOnReturns(s: State, d: Thread, outcome: Outcome, steps: seq<Step>, t: State)
    requires Inv(s) && Enabled(s, PollReturns(d, outcome)) && EndsBlockOn(s, d, outcome)
    requires Leads(Apply(s, PollReturns(d, outcome)), steps, t)
    requires steps == [] || Own(steps[..|steps| - 1], d) < 2
    ensures Own(steps, d) <= 2
    ensures Own(steps, d) < 2 ==>
      d in t.frames && t.frames[d].pc == if Own(steps, d) == 0 then ReturnTasks else ClearFlag
    ensures Own(steps, d) == 2 ==>
      d !in t.frames && !t.driving && multiset(s.frames[d].active) <= multiset(t.queue)
    ensures Ends(s, d, Own(steps, d), t)
    decreases |steps|
  {
    if steps == [] {
      Alone(s, d);
    } else {
      var last := |steps| - 1;
      var before :| Leads(Apply(s, PollReturns(d, outcome)), steps[..last], before) && Enabled(before, steps[last])
                    && t == Apply(before, steps[last]);
      BlockOnReturns(s, d, outcome, steps[..last], before);
      EndsOn(s, d, Own(steps[..last], d), before, steps[last]);
    }
  }

  /** The driver `d` is inside `block_on` and not on its way out. */
  predicate Drives(s: State, d: Thread) {
    d in s.frames && !s.frames[d].pc.ReturnTasks? && !s.frames[d].pc.ClearFlag?
  }

  lemma StopsOnlyByResult(s: State, step: Step, d: Thread)
    requires Enabled(s, step) && Drives(s, d)
    ensures Drives(Apply(s, step), d) <==> !(step.PollReturns? && step.thread == d && EndsBlockOn(s, d, step.outcome))
  {
  }

  /** And it does not return before: a driver that is on its way out, or gone, has had such
      a poll. */
  lemma {:induction false} ReturnsOnlyByResult(s: State, steps: seq<Step>, t: State, d: Thread)
    requires Leads(s, steps, t) && Drives(s, d) && !Drives(t, d)
    ensures exists i, b, outcome :: 0 <= i < |steps| && Leads(s, steps[..i], b) && Enabled(b, steps[i]) &&
              steps[i] == PollReturns(d, outcome) && EndsBlockOn(b, d, outcome)
    decreases |steps|
  {
    var last := |steps| - 1;
    var before :| Leads(s, steps[..last], before) && Enabled(before, steps[last])
                  && t == Apply(before, steps[last]);
    if Drives(before, d) {
      StopsOnlyByResult(before, steps[last], d);
      assert steps[last] == PollReturns(d, steps[last].outcome);
    } else {
      ReturnsOnlyByResult(s, steps[..last], before, d);
      hide Leads;
      var i, b, outcome :| 0 <= i < last && Leads(s, steps[..last][..i], b) && Enabled(b, steps[..last][i]) &&
              steps[..last][i] == PollReturns(d, outcome) && EndsBlockOn(b, d, outcome);
      assert steps[..last][..i] == steps[..i] && steps[..last][i] == steps[i];
    }
  }

  /** In the pass that `d` is in the middle of, a task has completed. */
  predicate MadeProgress(s: State, d: Thread) {
    d in s.frames &&
    match s.frames[d].pc
    case PassAt(_, progress) => progress
    case InTask(_, progress) => progress
    case TakeSecond(progress) => progress
    case _ => false
  }

  lemma ProgressMade(s: State, d: Thread)
    requires Enabled(s, PollReturns(d, Ready)) && s.frames[d].pc.InTask?
    ensures MadeProgress(Apply(s, PollReturns(d, Ready)), d)
  {
  }

  lemma ProgressOn(s: State, step: Step, d: Thread)
    requires Enabled(s, step) && MadeProgress(s, d) && s.driving
    ensures MadeProgress(Apply(s, step), d) ||
            (d in Apply(s, step).frames && Apply(s, step).frames[d].pc in {RegisterFirst, ReturnTasks})
  {
    if IsOwn(step, d) {
      OwnProgress(s, step, d);
    } else {
      OthersProgress(s, step, d);
    }
  }

  lemma OwnProgress(s: State, step: Step, d: Thread)
    requires Enabled(s, step) && MadeProgress(s, d) && IsOwn(step, d)
    ensures MadeProgress(Apply(s, step), d) ||
            (d in Apply(s, step).frames && Apply(s, step).frames[d].pc in {RegisterFirst, ReturnTasks})
  {
  }

  lemma OthersProgress(s: State, step: Step, d: Thread)
    requires Enabled(s, step) && MadeProgress(s, d) && s.driving && !IsOwn(step, d)
    ensures MadeProgress(Apply(s, step), d)
  {
    assert d in Apply(s, step).frames && Apply(s, step).frames[d].pc == s.frames[d].pc;
  }

  /** After a pass in which a task completed the driver does not sleep before it has gone
      through its loop again: between the two it is at its start, or leaves `block_on`. */
  lemma {:induction false} NoSleepAfterProgress(s: State, steps: seq<Step>, t: State, d: Thread)
    requires Inv(s) && Leads(s, steps, t) && MadeProgress(s, d) && !MadeProgress(t, d)
    ensures exists i, b :: 0 <= i <= |steps| && Leads(s, steps[..i], b) &&
              d in b.frames && b.frames[d].pc in {RegisterFirst, ReturnTasks}
    decreases |steps|
  {
    var last := |steps| - 1;
    var before :| Leads(s, steps[..last], before) && Enabled(before, steps[last])
                  && t == Apply(before, steps[last]);
    LeadsKeepsInv(s, steps[..last], before);
    if MadeProgress(before, d) {
      ProgressOn(before, steps[last], d);
      assert steps[..|steps|] == steps;
    } else {
      NoSleepAfterProgress(s, steps[..last], before, d);
      hide Leads;
      var i, b :| 0 <= i <= last && Leads(s, steps[..last][..i], b) &&
              d in b.frames && b.frames[d].pc in {RegisterFirst, ReturnTasks};
      assert steps[..last][..i] == steps[..i];
    }
  }

  lemma {:induction false} LeadsKeepsInv(s: State, steps: seq<Step>, t: State)
    requires Inv(s) && Leads(s, steps, t)
    ensures Inv(t)
    decreases |steps|
  {
    if steps != [] {
      var last := |steps| - 1;
      var before :| Leads(s, steps[..last], before) && Enabled(before, steps[last])
                    && t == Apply(before, steps[last]);
      LeadsKeepsInv(s, steps[..last], before);
      InvPreserved(before, steps[last]);
    }
  }

  /** A driver can always go on, unless it sleeps or is in the middle of a push. */
  lemma DriverGoesOn(steps: seq<Step>, s: State, d: Thread)
    requires Reaches(steps, s) && d in s.frames && !Asleep(s, d) && d !in s.spawning
    ensures exists step :: IsOwn(step, d) && Enabled(s, step)
  {
    ReachableInv(steps, s);
    if InPoll(s.frames[d].pc) {
      assert Enabled(s, PollReturns(d, Pending)) && IsOwn(PollReturns(d, Pending), d);
    } else if s.frames[d].pc.Parked? {
      assert Enabled(s, ParkReturns(d, false)) && IsOwn(ParkReturns(d, false), d);
    } else {
      assert Enabled(s, Drive(d)) && IsOwn(Drive(d), d);
    }
  }

  lemma RunOneMore(steps: seq<Step>, s: State, step: Step)
    requires Reaches(steps, s) && Enabled(s, step)
    ensures Reaches(steps + [step], Apply(s, step))
  {
    var more := steps + [step];
    assert more[..|more| - 1] == steps && more[|more| - 1] == step;
    assert Leads(INIT, more[..|more| - 1], s);
  }

  /** Thread 1 drives task 7 and stands at `pc`; nobody else does anything. */
  predicate Drives7(s: State, pc: Pc) {
    && s.tokens == {} && s.spawning == {} && s.queue == [] && 8 !in s.spawned
    && s.frames.Keys == {1} && s.frames[1] == Frame(pc, [7], false)
  }

  lemma DriverPolls(steps: seq<Step>, s: State) returns (more: seq<Step>, t: State)
    requires Reaches(steps, s) && Drives7(s, PollMain)
    ensures Reaches(more, t) && Drives7(t, PassAt(1, false))
  {
    hide Reaches;
    more, t := OneStep(steps, s, Drive(1));
    more, t := OneStep(more, t, PollReturns(1, Pending));
    more, t := OneStep(more, t, Drive(1));
    more, t := OneStep(more, t, PollReturns(1, Pending));
  }

  lemma DriverParks(steps: seq<Step>, s: State) returns (more: seq<Step>, t: State)
    requires Reaches(steps, s) && Drives7(s, PassAt(1, false))
    ensures Reaches(more, t) && Drives7(t, Parked)
  {
    hide Reaches;
    more, t := OneStep(steps, s, Drive(1));
    more, t := OneStep(more, t, Drive(1));
    assert Drives7(t, RegisterSecond);
    more, t := LastSteps(more, t);
  }

  lemma LastSteps(steps: seq<Step>, s: State) returns (more: seq<Step>, t: State)
    requires Reaches(steps, s) && Drives7(s, RegisterSecond)
    ensures Reaches(more, t) && Drives7(t, Parked)
  {
    hide Reaches;
    more, t := OneStep(steps, s, Drive(1));
    more, t := OneStep(more, t, Drive(1));
  }

  lemma TaskQueued() returns (steps: seq<Step>, s: State)
    ensures Reaches(steps, s)
    ensures s == INIT.(queue := [7], spawned := multiset{7})
  {
    assert Reaches([], INIT);
    hide Reaches;
    steps, s := OneStep([], INIT, SpawnPush(2, 7));
    steps, s := OneStep(steps, s, SpawnWake(2));
    assert multiset{} + multiset{7} == multiset{7};
  }

  lemma DriverStarts() returns (steps: seq<Step>, s: State)
    ensures Reaches(steps, s) && Drives7(s, PollMain)
  {
    hide Reaches;
    steps, s := TaskQueued();
    steps, s := OneStep(steps, s, Enter(1));
    steps, s := OneStep(steps, s, Drive(1));
    steps, s := OneStep(steps, s, Drive(1));
  }

  lemma OneStep(steps: seq<Step>, s: State, step: Step) returns (more: seq<Step>, t: State)
    requires Reaches(steps, s) && Enabled(s, step)
    ensures t == Apply(s, step) && Reaches(more, t)
  {
    more, t := steps + [step], Apply(s, step);
    RunOneMore(steps, s, step);
  }

  /** Sleep does happen, with a pending task and even with a task in the queue: the
      thread that pushed it has not fired its wake yet. */
  lemma SleepHappens() returns (steps: seq<Step>, s: State)
    ensures Reaches(steps, s) && Asleep(s, 1)
    ensures s.frames[1].active == [7] && s.queue == [8] && s.spawning == {2}
  {
    hide Reaches;
    steps, s := DriverStarts();
    steps, s := DriverPolls(steps, s);
    steps, s := DriverParks(steps, s);
    steps, s := OneStep(steps, s, SpawnPush(2, 8));
  }
}
