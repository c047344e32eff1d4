/**
 The join handle of the Compio runtime: a handle that an abort turns into a
 cancellation, polled by whoever asks, and harvested by `is_finished` on the way.

 The runtime behind it is modelled by its contract only: a task runs until it
 completes, panics or is stopped, and its cancellation yields the task's value if
 the task completed after all.
 */
module CompioHandle {
  import opened Common

  datatype TaskState = Live | Completed(value: int) | Panicked | Stopped

  datatype JoinError = TaskPanicked | Cancelled | Aborted | Empty

  type JoinResult = Result<int, JoinError>

  /** `InnerCompioHandle`; the handle and the future it holds stand for the task. */
  datatype Inner =
    | Running(present: bool)
    | Cancelling
    | Harvested(harvest: Option<Option<int>>)

  /** The output of `InnerCompioHandle::poll`. */
  datatype InnerResult = Value(value: Option<int>) | Failure(error: JoinError)

  // ----- What the runtime promises -----

  function PollHandle(task: TaskState): Poll<JoinResult> {
    match task
    case Live => Pending
    case Completed(v) => Ready(Ok(v))
    case Panicked => Ready(Err(TaskPanicked))
    case Stopped => Ready(Err(Cancelled))
  }

  function PollCancel(task: TaskState): Poll<Option<int>> {
    match task
    case Live => Pending
    case Completed(v) => Ready(Some(v))
    case Panicked => Ready(None)
    case Stopped => Ready(None)
  }

  // ----- The one-shot result the handle refines -----

  /** The handle as its user sees it: whether an abort came in time, and whether the
      outcome has been handed out. */
  datatype OneShot = OneShot(aborted: bool, taken: bool)

  /** The outcome of a task that has ended: an abort hides everything but a value. */
  function Outcome(task: TaskState, aborted: bool): JoinResult
    requires !task.Live?
  {
    if task.Completed? then Ok(task.value)
    else if aborted then Err(Aborted)
    else if task.Panicked? then Err(TaskPanicked)
    else Err(Cancelled)
  }

  function Await(view: OneShot, task: TaskState): Poll<JoinResult> {
    if view.taken then Ready(Err(if view.aborted then Aborted else Empty))
    else if task.Live? then Pending
    else Ready(Outcome(task, view.aborted))
  }

  class Handle {
    var inner: Inner
    var abortRequested: bool
    var task: TaskState   // on the runtime's side
    var cancelEnded: bool // the cancellation has been ready, and must not be polled again

    ghost predicate Valid()
      reads this
    {
      && (abortRequested <==> !inner.Running?)
      && (inner.Running? || inner.Cancelling? ==> !cancelEnded)
      && (View().taken ==> !task.Live?)
      && (inner.Harvested? && inner.harvest.Some? ==> PollCancel(task) == Ready(inner.harvest.value))
    }

    ghost function View(): OneShot
      reads this
    {
      OneShot(abortRequested, inner == Running(false) || inner == Harvested(None))
    }

    constructor ()
      ensures Valid() && View() == OneShot(false, false) && task == Live
    {
      inner, abortRequested, task, cancelEnded := Running(true), false, Live, false;
    }

    /** Polls the future of the cancellation, which gives its result once. */
    method PollCancelFuture() returns (r: Poll<Option<int>>)
      requires !cancelEnded
      modifies this`cancelEnded
      ensures r == PollCancel(task) && cancelEnded == r.Ready?
    {
      r := PollCancel(task);
      cancelEnded := r.Ready?;
    }

    /** The task ends, at any point between two uses of the handle. */
    method End(ending: TaskState)
      requires Valid() && task.Live?
      modifies this`task
      ensures Valid() && task == ending
    {
      task := ending;
    }

    /** `InnerCompioHandle::poll`. */
    method PollInner() returns (r: Poll<InnerResult>)
      requires Valid()
      modifies this`inner, this`cancelEnded
      ensures r.Pending? ==> inner == old(inner) && !old(View().taken) && task.Live?
      ensures Valid() && (r.Ready? ==> View().taken)
      ensures r.Ready? ==> r.result ==
                           if old(View().taken) then (if abortRequested then Failure(Empty) else Value(None))
                           else if task.Completed? then Value(Some(task.value))
                           else if abortRequested then Value(None)
                           else Failure(Outcome(task, false).error)
    {
      match inner
      case Running(present) =>
        if !present {
          return Ready(Value(None));
        }
        inner := Running(false);
        match PollHandle(task) {
          case Ready(Ok(v)) => return Ready(Value(Some(v)));
          case Ready(Err(e)) => return Ready(Failure(e));
          case Pending =>
            inner := Running(true);
            return Pending;
        }
      case Cancelling =>
        var poll := PollCancelFuture();
        match poll {
          case Ready(result) =>
            inner := Harvested(None);
            return Ready(Value(result));
          case Pending => return Pending;
        }
      case Harvested(harvest) =>
        inner := Harvested(None);
        match harvest {
          case Some(result) => return Ready(Value(result));
          case None => return Ready(Failure(Empty));
        }
    }

    /** `JoinHandle::poll` on a Compio handle. */
    method Poll() returns (r: Poll<JoinResult>)
      requires Valid()
      modifies this`inner, this`cancelEnded
      ensures Valid() && r == Await(old(View()), task)
      ensures View() == old(View()).(taken := r.Ready?)
    {
      var poll := PollInner();
      match poll
      case Pending => return Pending;
      case Ready(Value(Some(v))) => return Ready(Ok(v));
      case Ready(Value(None)) => return Ready(Err(if abortRequested then Aborted else Empty));
      case Ready(Failure(e)) => return Ready(Err(if abortRequested then Aborted else e));
    }

    /** `JoinHandle::abort`: `start_compio_cancel`. An abort counts unless the outcome
        has been handed out already. */
    method Abort()
      requires Valid()
      modifies this`inner, this`abortRequested, this`cancelEnded
      ensures Valid()
      ensures View() == old(View()).(aborted := old(View().aborted || !View().taken))
    {
      if !inner.Running? || !inner.present {
        return;
      }
      inner := Running(false);
      abortRequested := true;
      var poll := PollCancelFuture();
      match poll
      case Ready(result) => inner := Harvested(Some(result));
      case Pending => inner := Cancelling;
    }

    /** `JoinHandle::is_finished`; it may keep the outcome, but never hands it out. */
    method IsFinished() returns (finished: bool)
      requires Valid()
      modifies this`inner, this`cancelEnded
      ensures Valid() && View() == old(View())
      ensures finished <==> !task.Live?
    {
      match inner
      case Running(present) => return if present then PollHandle(task).Ready? else true;
      case Cancelling =>
        var poll := PollCancelFuture();
        match poll {
          case Ready(result) =>
            inner := Harvested(Some(result));
            return true;
          case Pending => return false;
        }
      case Harvested(_) => return true;
    }
  }

  // ----- Any use of a handle -----

  datatype Use = UsePoll | UseAbort | UseIsFinished | TaskEnds(ending: TaskState)

  /** The ready results of a handle's polls, in order: the outcome once, and then
      nothing but the news that there is none. */
  ghost predicate OutcomeOnce(results: seq<JoinResult>, task: TaskState, aborted: bool) {
    && (results != [] ==> !task.Live? && results[0] == Outcome(task, aborted))
    && (forall i | 1 <= i < |results| :: results[i] == Err(if aborted then Aborted else Empty))
  }

  predicate Ends(use: Use) {
    use.TaskEnds? && !use.ending.Live?
  }

  /** Whatever the order of polls, aborts, `is_finished` checks and the task's end,
      the handle is a one-shot result: the outcome is handed out by the first poll
      after the task ended, never lost before that and never repeated; and it counts
      as aborted exactly if an abort came before that poll, which is at `first`. */
  method AnyUse(uses: seq<Use>) returns (results: seq<JoinResult>, task: TaskState, first: nat)
    ensures first <= |uses| && OutcomeOnce(results, task, UseAbort in uses[..first])
    ensures first < |uses| <==>
      exists j :: 0 <= j < |uses| && uses[j].UsePoll? && exists i :: 0 <= i < j && Ends(uses[i])
    ensures first < |uses| ==> results != [] && uses[first].UsePoll?
    ensures forall j | 0 <= j < first && uses[j].UsePoll? :: !exists i :: 0 <= i < j && Ends(uses[i])
  {
    var handle := new Handle();
    results, first := [], 0;
    for n := 0 to |uses|
      invariant handle.Valid() && fresh(handle)
      invariant handle.View().taken <==> results != []
      invariant first == n <==> results == []
      invariant first <= n && OutcomeOnce(results, handle.task, handle.View().aborted)
      invariant handle.View().aborted <==> UseAbort in uses[..first]
      invariant handle.task.Live? <==> forall i | 0 <= i < n :: !Ends(uses[i])
      invariant forall j | 0 <= j < first && uses[j].UsePoll? :: !exists i :: 0 <= i < j && Ends(uses[i])
      invariant first < n ==> uses[first].UsePoll? && exists i :: 0 <= i < first && Ends(uses[i])
    {
      assert uses[..n + 1] == uses[..n] + [uses[n]];
      var poll := Pending;
      match uses[n] {
        case UsePoll => poll := handle.Poll();
        case UseAbort => handle.Abort();
        case UseIsFinished =>
          var finished := handle.IsFinished();
        case TaskEnds(ending) =>
          if handle.task.Live? {
            handle.End(ending);
          }
      }
      if poll.Ready? {
        results := results + [poll.result];
      }
      if results == [] {
        first := n + 1;
      }
    }
    return results, handle.task, first;
  }
}
