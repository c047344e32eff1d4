/**
 Who is woken when a Compio task ends or is aborted behind an `AbortableJoinHandle`.

 Three slots can hold the waiter's waker: that of the shared cell, that of the
 runtime's task while it is simply awaited, and the one behind the cancellation's own
 waker once an abort has turned the handle into a cancellation. A poll registers in
 the cell, and only then takes the lock; polls of the cell follow each other, while
 aborts, `is_finished` checks, the end of the task and the wakes that follow an abort
 or the end come in between at any point that the lock allows.
 */
module CompioWake {
  import opened Common

  type Waiter = nat

  datatype Stage = Running | Cancelling | Ended

  /** How far a poll has come: registered in the cell, or, under the lock, registered
      behind the cancellation as well. */
  datatype Polling = Idle | InCell(waiter: Waiter) | InOuter(waiter: Waiter)

  /** What the runtime keeps for the task, and fires when it ends. */
  datatype Kept = Nothing | TaskWaker(waiter: Waiter) | CancelWaker

  datatype State = State(
    stage: Stage,
    completed: bool,            // the task has stopped running
    kept: Kept,
    firing: Kept,               // the task has ended and is about to fire this
    cell: Option<Waiter>,       // the slot of the shared cell
    outer: Option<Waiter>,      // the slot behind the cancellation's waker
    polling: Polling,
    owed: nat,                  // aborts that have yet to wake the cell
    pending: Option<Waiter>,    // the last waiter to register, once it saw Pending
    sawRunning: bool,           // it saw that while the task was not being cancelled
    woken: set<Waiter>)         // waiters woken since they registered

  const INIT: State := State(Running, false, Nothing, Nothing, None, None, Idle, 0, None, false, {})

  datatype Step =
    | Register(waiter: Waiter)
    | LockPoll
    | PollCancel
    | Abort
    | WakeCell
    | IsFinished
    | Complete
    | Fire

  predicate Enabled(s: State, step: Step) {
    match step
    case Register(_) => s.polling.Idle?
    case LockPoll => s.polling.InCell?
    case PollCancel => s.polling.InOuter?
    case Abort => !s.polling.InOuter?
    case WakeCell => s.owed > 0
    case IsFinished => !s.polling.InOuter?
    case Complete => !s.completed
    case Fire => !s.firing.Nothing?
  }

  /** `poll_inner`: ready if the task has stopped, and otherwise the task keeps the
      cancellation's waker. */
  function PollInner(s: State): State {
    if s.completed then s.(stage := Ended, kept := Nothing) else s.(stage := Cancelling, kept := CancelWaker)
  }

  /** The result of a poll by `w`. */
  function Seen(s: State, w: Waiter, ready: bool): State {
    s.(polling := Idle, pending := if ready then None else Some(w), sawRunning := s.stage.Running?)
  }

  function Wake(s: State, waiter: Option<Waiter>): State {
    if waiter.Some? then s.(woken := s.woken + {waiter.value}) else s
  }

  /** The poll of the handle, under the lock; a cancellation is registered with first. */
  function PollHandle(s: State, w: Waiter): State {
    match s.stage
    case Running =>
      if s.completed then Seen(s, w, true).(stage := Ended) else Seen(s, w, false).(kept := TaskWaker(w))
    case Cancelling => s.(outer := Some(w), polling := InOuter(w))
    case Ended => Seen(s, w, true)
  }

  function FireKept(s: State): State {
    match s.firing
    case Nothing => s
    case TaskWaker(w) => Wake(s, Some(w))
    case CancelWaker => Wake(s, s.outer).(outer := None)
  }

  function Apply(s: State, step: Step): State
    requires Enabled(s, step)
  {
    match step
    case Register(w) =>
      s.(cell := Some(w), polling := InCell(w), pending := None, woken := s.woken - {w})
    case LockPoll => PollHandle(s, s.polling.waiter)
    case PollCancel => Seen(PollInner(s), s.polling.waiter, s.completed)
    case Abort => (if s.stage.Running? then PollInner(s) else s).(owed := s.owed + 1)
    case WakeCell => Wake(s, s.cell).(cell := None, owed := s.owed - 1)
    case IsFinished => if s.stage.Cancelling? then PollInner(s) else s
    case Complete => s.(completed := true, kept := Nothing, firing := s.kept)
    case Fire => FireKept(s).(firing := Nothing)
  }

  /** The wake of `w` is assured: an abort still owes it, or it comes with the end of
      the task. */
  ghost predicate Assured(s: State, w: Waiter) {
    || (s.owed > 0 && s.cell == Some(w))
    || (s.stage.Running? && s.kept == TaskWaker(w) && !s.completed)
    || s.firing == TaskWaker(w)
    || (s.outer == Some(w) && (s.firing.CancelWaker? || (s.kept.CancelWaker? && !s.completed)))
  }

  ghost predicate Inv(s: State) {
    && (s.stage.Running? ==> !s.kept.CancelWaker? && !s.firing.CancelWaker?)
    && (s.stage.Cancelling? && !s.completed ==> s.kept.CancelWaker?)
    && (s.completed <== !s.firing.Nothing?)
    && (s.polling.InOuter? ==>
          s.stage.Cancelling? &&
          (s.polling.waiter in s.woken || s.outer == s.cell == Some(s.polling.waiter)))
    && (s.polling.InCell? ==> s.polling.waiter in s.woken || s.cell == Some(s.polling.waiter))
    && (s.pending.Some? ==>
          && s.polling.Idle?
          && (s.pending.value in s.woken ||
              (s.cell == Some(s.pending.value) && Assured(s, s.pending.value)
               && (s.sawRunning && !s.stage.Running? ==> s.owed > 0 || s.completed))))
  }

  ghost predicate Reaches(steps: seq<Step>, s: State)
    decreases |steps|
  {
    if steps == [] then s == INIT
    else
      var last := |steps| - 1;
      exists before :: Reaches(steps[..last], before) && Enabled(before, steps[last])
                       && s == Apply(before, steps[last])
  }

  lemma InvPreserved(s: State, step: Step)
    requires Inv(s) && Enabled(s, step)
    ensures Inv(Apply(s, step))
  {
  }

  lemma {:induction false} ReachableInv(steps: seq<Step>, s: State)
    requires Reaches(steps, s)
    ensures Inv(s)
    decreases |steps|
  {
    if steps != [] {
      var last := |steps| - 1;
      var before :| Reaches(steps[..last], before) && Enabled(before, steps[last])
                    && s == Apply(before, steps[last]);
      ReachableInv(steps[..last], before);
      InvPreserved(before, steps[last]);
    }
  }

  /** The last waiter to register and see Pending is woken once the task has ended, or
      the wake that follows is still to come: that of the end, no matter whether its
      waker was set by a poll, the abort or an `is_finished` check, or that of an abort. */
  lemma CompletionWakesWaiter(steps: seq<Step>, s: State, w: Waiter)
    requires Reaches(steps, s) && s.pending == Some(w) && s.completed && w !in s.woken
    ensures (Enabled(s, Fire) && w in Apply(s, Fire).woken) || (Enabled(s, WakeCell) && w in Apply(s, WakeCell).woken)
  {
    ReachableInv(steps, s);
  }

  /** An abort hands the task to the cancellation, which knows nothing of a waiter that
      saw Pending before: that waiter is woken through the cell, or by the end of the
      task, so it comes back and registers with the cancellation. */
  lemma AbortWakesWaiter(steps: seq<Step>, s: State, w: Waiter)
    requires Reaches(steps, s) && s.pending == Some(w) && w !in s.woken
    requires s.sawRunning && !s.stage.Running? && !s.completed
    ensures Enabled(s, WakeCell) && w in Apply(s, WakeCell).woken
  {
    ReachableInv(steps, s);
  }

  /** As long as its wake is not assured by an abort or by the end, a waiter that saw
      Pending is kept where the end of the task will find it. */
  lemma WaiterIsKept(steps: seq<Step>, s: State, w: Waiter)
    requires Reaches(steps, s) && s.pending == Some(w) && w !in s.woken
    requires s.owed == 0 && !s.completed
    ensures var ended := Apply(s, Complete); Enabled(ended, Fire) && w in Apply(ended, Fire).woken
  {
    ReachableInv(steps, s);
  }

  // ----- What polls and aborts see -----

  /** A poll of a task that has not stopped sees Pending and leaves its waker where the end
      of the task will find it; a poll of one that has stopped is ready. */
  lemma PollSees(s: State, w: Waiter)
    requires Inv(s)
    ensures s.polling == InCell(w) && s.stage.Running? && !s.completed ==>
      var t := Apply(s, LockPoll); t.pending == Some(w) && t.sawRunning && t.kept == TaskWaker(w) && t.stage.Running?
    ensures s.polling == InOuter(w) && !s.completed ==>
      var t := Apply(s, PollCancel);
      t.pending == Some(w) && !t.sawRunning && t.kept.CancelWaker? && t.outer == s.outer && t.stage.Cancelling?
    ensures s.polling == InCell(w) && s.completed && !s.stage.Cancelling? ==>
      var t := Apply(s, LockPoll); t.pending == None && t.stage.Ended? && t.polling.Idle?
    ensures s.polling == InOuter(w) && s.completed ==>
      var t := Apply(s, PollCancel); t.pending == None && t.stage.Ended? && t.polling.Idle?
    ensures s.polling == InCell(w) && s.stage.Cancelling? ==> Apply(s, LockPoll).polling == InOuter(w)
  {
  }

  /** An abort turns a running handle into a cancellation, or takes its result if the task has
      stopped, and owes the cell a wake in any case; a check of a cancellation takes its
      result if the task has stopped. */
  lemma AbortStops(s: State)
    requires Inv(s) && !s.polling.InOuter?
    ensures var t := Apply(s, Abort);
      t.owed == s.owed + 1 && t.pending == s.pending &&
      t.stage == (if !s.stage.Running? then s.stage else if s.completed then Ended else Cancelling)
    ensures var t := Apply(s, IsFinished);
      t.owed == s.owed && t.pending == s.pending &&
      t.stage == if s.stage.Cancelling? && s.completed then Ended else s.stage
  {
  }

  lemma OneStep(steps: seq<Step>, s: State, step: Step) returns (more: seq<Step>, t: State)
    requires Reaches(steps, s) && Enabled(s, step)
    ensures t == Apply(s, step) && Reaches(more, t)
  {
    more, t := steps + [step], Apply(s, step);
    assert more[..|more| - 1] == steps && more[|more| - 1] == step;
    assert Reaches(more[..|more| - 1], s);
  }

  /** A waiter can be aborted over: it saw Pending, and its wake is still owed. */
  lemma AbortOverWaiterHappens() returns (steps: seq<Step>, s: State)
    ensures Reaches(steps, s) && s.pending == Some(9) && 9 !in s.woken
    ensures s.sawRunning && s.stage.Cancelling? && !s.completed && s.owed == 1
  {
    assert Reaches([], INIT);
    hide Reaches;
    steps, s := OneStep([], INIT, Register(9));
    steps, s := OneStep(steps, s, LockPoll);
    steps, s := OneStep(steps, s, Abort);
  }

  /** And a waiter can wait for a cancellation that ends: the wake is on its way. */
  lemma CancelledWaiterHappens() returns (steps: seq<Step>, s: State)
    ensures Reaches(steps, s) && s.pending == Some(9) && 9 !in s.woken
    ensures !s.sawRunning && s.completed && s.owed == 0 && s.firing.CancelWaker?
  {
    assert Reaches([], INIT);
    hide Reaches;
    steps, s := OneStep([], INIT, Abort);
    steps, s := OneStep(steps, s, WakeCell);
    steps, s := OneStep(steps, s, Register(9));
    steps, s := OneStep(steps, s, LockPoll);
    steps, s := OneStep(steps, s, PollCancel);
    steps, s := OneStep(steps, s, Complete);
  }
}
