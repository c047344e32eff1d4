/**
 `executor_scope`: tasks spawned on a real executor through a `ScopeExecutor` that
 tracks an abort-on-drop handle for each, and joined one after the other.

 The future of `executor_scope` can be dropped at any await point: between two polls
 of the closure, or before, while or after any handle is joined. Whatever happens
 between two polls is an arbitrary list of interludes.
 */
module ExecutorScope {
  import opened Common

  type TaskId = nat

  /** What the closure does; the k-th task spawned has id k. */
  datatype Act = Spawn | Yield

  datatype Ending = Returns(value: int) | Panics

  datatype Closure = Closure(acts: seq<Act>, ending: Ending)

  /** What happens while the future is suspended: tasks finish, or it is dropped. */
  datatype Interlude = Finish(tasks: set<TaskId>) | DropFuture

  /** `Waiting`: there are no more interludes. */
  datatype Outcome = Returned(value: int) | Dropped | Waiting

  ghost function Spawns(acts: seq<Act>): nat {
    if acts == [] then 0 else (if acts[0].Spawn? then 1 else 0) + Spawns(acts[1..])
  }

  ghost function Yields(acts: seq<Act>): nat {
    if acts == [] then 0 else (if acts[0].Yield? then 1 else 0) + Yields(acts[1..])
  }

  /** How many tasks there are when the future is suspended for the `n`-th time, counting
      from 0: those before that `Yield` of the closure, or all if it has no more. */
  ghost function SpawnedBy(acts: seq<Act>, n: nat): nat {
    if acts == [] then 0
    else if acts[0].Spawn? then 1 + SpawnedBy(acts[1..], n)
    else if n == 0 then 0
    else SpawnedBy(acts[1..], n - 1)
  }

  /** One of the first `used` interludes finishes the task, which was spawned by then. */
  ghost predicate FinishedIn(acts: seq<Act>, interludes: seq<Interlude>, used: nat, t: TaskId) {
    exists i :: 0 <= i < used && i < |interludes| && interludes[i].Finish? && t in interludes[i].tasks &&
                t < SpawnedBy(acts, i)
  }

  /** How many interludes there are before one drops the future. */
  ghost function FirstDrop(interludes: seq<Interlude>): (n: nat)
    ensures n <= |interludes|
  {
    if interludes == [] || interludes[0].DropFuture? then 0 else 1 + FirstDrop(interludes[1..])
  }

  /** How `executor_scope` ends, from the closure and the interludes alone: the closure has
      to come to its end, and then every task, before the future is dropped or there are no
      more interludes. */
  ghost function Verdict(closure: Closure, interludes: seq<Interlude>): Outcome {
    var n := FirstDrop(interludes);
    var stopped := if n < |interludes| then Dropped else Waiting;
    if n < Yields(closure.acts) then stopped
    else if closure.ending.Panics? then Dropped
    else if forall t: TaskId :: t < Spawns(closure.acts) ==> FinishedIn(closure.acts, interludes, n, t)
      then Returned(closure.ending.value)
    else stopped
  }

  lemma {:induction false} ActsConcat(a: seq<Act>, b: seq<Act>)
    ensures Spawns(a + b) == Spawns(a) + Spawns(b) && Yields(a + b) == Yields(a) + Yields(b)
  {
    if a == [] {
      assert a + b == b;
    } else {
      assert (a + b)[0] == a[0] && (a + b)[1..] == a[1..] + b;
      ActsConcat(a[1..], b);
    }
  }

  lemma {:induction false} SpawnedAtYield(a: seq<Act>, b: seq<Act>)
    ensures SpawnedBy(a + [Yield] + b, Yields(a)) == Spawns(a)
  {
    if a == [] {
      assert ([] + [Yield] + b)[0] == Yield;
    } else {
      var acts := a + [Yield] + b;
      assert acts[0] == a[0] && acts[1..] == a[1..] + [Yield] + b;
      SpawnedAtYield(a[1..], b);
    }
  }

  lemma {:induction false} SpawnedAfterAll(acts: seq<Act>, n: nat)
    requires Yields(acts) <= n
    ensures SpawnedBy(acts, n) == Spawns(acts)
  {
    if acts != [] {
      SpawnedAfterAll(acts[1..], if acts[0].Yield? then n - 1 else n);
    }
  }

  lemma {:induction false} FirstDropIs(interludes: seq<Interlude>, n: nat)
    requires n <= |interludes| && forall i :: 0 <= i < n ==> interludes[i].Finish?
    ensures n <= FirstDrop(interludes)
    ensures n == |interludes| || interludes[n].DropFuture? ==> FirstDrop(interludes) == n
  {
    if n > 0 {
      FirstDropIs(interludes[1..], n - 1);
    }
  }

  /** The counts before and after the closure's `i`-th act. */
  lemma AtAct(acts: seq<Act>, i: nat)
    requires i < |acts|
    ensures Spawns(acts[..i + 1]) == Spawns(acts[..i]) + if acts[i].Spawn? then 1 else 0
    ensures Yields(acts[..i + 1]) == Yields(acts[..i]) + if acts[i].Yield? then 1 else 0
    ensures acts[i].Yield? ==> SpawnedBy(acts, Yields(acts[..i])) == Spawns(acts[..i])
    ensures acts[i].Yield? ==> Yields(acts[..i]) < Yields(acts)
  {
    assert acts == acts[..i] + [acts[i]] + acts[i + 1..] && acts[..i + 1] == acts[..i] + [acts[i]];
    ActsConcat(acts[..i], [acts[i]]);
    ActsConcat(acts[..i + 1], acts[i + 1..]);
    if acts[i].Yield? {
      SpawnedAtYield(acts[..i], acts[i + 1..]);
    }
  }

  /** The first `used` interludes have finished these tasks, and not dropped the future. */
  ghost predicate Follows(finished: set<TaskId>, acts: seq<Act>, interludes: seq<Interlude>, used: nat) {
    used <= |interludes| &&
    (forall i :: 0 <= i < used ==> interludes[i].Finish?) &&
    (forall t: TaskId :: t in finished <==> FinishedIn(acts, interludes, used, t))
  }

  lemma FollowsOn(finished: set<TaskId>, acts: seq<Act>, interludes: seq<Interlude>, used: nat, spawned: nat)
    requires Follows(finished, acts, interludes, used)
    requires used < |interludes| && interludes[used].Finish? && spawned == SpawnedBy(acts, used)
    ensures Follows(finished + (set t | t in interludes[used].tasks && t < spawned), acts, interludes, used + 1)
  {
    var more := set t | t in interludes[used].tasks && t < spawned;
    forall t: TaskId ensures t in finished + more <==> FinishedIn(acts, interludes, used + 1, t) {
      assert t in finished <==> FinishedIn(acts, interludes, used, t);
      if t in more {
        assert interludes[used].Finish? && t in interludes[used].tasks && t < SpawnedBy(acts, used);
      }
    }
  }

  /** The future stops while the closure is pending. */
  lemma StopsInClosure(closure: Closure, interludes: seq<Interlude>, used: nat, finished: set<TaskId>)
    requires Follows(finished, closure.acts, interludes, used) && used < Yields(closure.acts)
    ensures used == |interludes| ==> Verdict(closure, interludes) == Waiting
    ensures used < |interludes| && interludes[used].DropFuture? ==> Verdict(closure, interludes) == Dropped
  {
    FirstDropIs(interludes, used);
  }

  /** The future stops while it waits for task `t`. */
  lemma StopsInJoin(closure: Closure, interludes: seq<Interlude>, used: nat, finished: set<TaskId>, t: TaskId)
    requires Follows(finished, closure.acts, interludes, used) && Yields(closure.acts) <= used
    requires closure.ending.Returns? && t < Spawns(closure.acts) && t !in finished
    ensures used == |interludes| ==> Verdict(closure, interludes) == Waiting
    ensures used < |interludes| && interludes[used].DropFuture? ==> Verdict(closure, interludes) == Dropped
  {
    FirstDropIs(interludes, used);
    assert !FinishedIn(closure.acts, interludes, used, t);
  }

  /** The closure has ended, and if it returned so have all tasks. */
  lemma ComesToEnd(closure: Closure, interludes: seq<Interlude>, used: nat, finished: set<TaskId>)
    requires Follows(finished, closure.acts, interludes, used) && Yields(closure.acts) <= used
    requires closure.ending.Returns? ==> forall t :: 0 <= t < Spawns(closure.acts) ==> t in finished
    ensures Verdict(closure, interludes) ==
      if closure.ending.Panics? then Dropped else Returned(closure.ending.value)
  {
    FirstDropIs(interludes, used);
    var n := FirstDrop(interludes);
    if closure.ending.Returns? {
      forall t | 0 <= t < Spawns(closure.acts) ensures FinishedIn(closure.acts, interludes, n, t) {
        assert t in finished;
        assert FinishedIn(closure.acts, interludes, used, t);
        var i :| 0 <= i < used && i < |interludes| && interludes[i].Finish? && t in interludes[i].tasks &&
                 t < SpawnedBy(closure.acts, i);
        assert i < n;
      }
    }
  }

  ghost function Range(low: nat, high: nat): (ids: seq<TaskId>)
    requires low <= high
    ensures |ids| == high - low
    ensures forall i :: 0 <= i < |ids| ==> ids[i] == low + i
  {
    seq(high - low, i requires 0 <= i < high - low => low + i)
  }

  lemma RangeTail(low: nat, high: nat)
    requires low <= high
    ensures low < high <==> Range(low, high) != []
    ensures low < high ==> Range(low, high)[0] == low && Range(low, high)[1..] == Range(low + 1, high)
  {
  }

  datatype Books = Books(
    spawned: nat, finished: set<TaskId>, current: Option<TaskId>, handles: seq<TaskId>, taskHandles: seq<TaskId>)

  /** The first `joined` tasks have finished, the next is awaited if one is, and the
      others are owned by the handles: the tracking ones, or the drained ones. */
  ghost predicate Tracks(b: Books, joined: nat) {
    var next := joined + if b.current.Some? then 1 else 0;
    next <= b.spawned &&
    (forall t :: 0 <= t < joined ==> t in b.finished) &&
    (forall t :: t in b.finished ==> t < b.spawned) &&
    (b.current.Some? ==> b.current.value == joined) &&
    ((b.handles == [] && b.taskHandles == Range(next, b.spawned)) ||
     (b.taskHandles == [] && b.handles == Range(next, b.spawned)))
  }

  lemma Drained(b: Books, joined: nat)
    requires Tracks(b, joined) && b.handles == []
    ensures Tracks(b.(handles := b.taskHandles, taskHandles := []), joined)
  {
  }

  lemma NextAwaited(b: Books, joined: nat)
    requires Tracks(b, joined) && b.current == None && b.taskHandles == [] && b.handles != []
    ensures Tracks(b.(current := Some(b.handles[0]), handles := b.handles[1..]), joined)
  {
    RangeTail(joined, b.spawned);
  }

  lemma NextJoined(b: Books, joined: nat)
    requires Tracks(b, joined) && b.current.Some? && b.current.value in b.finished
    ensures Tracks(b.(current := None), joined + 1)
  {
  }

  lemma AllJoined(b: Books, joined: nat)
    requires Tracks(b, joined) && b.current == None && b.taskHandles == [] && b.handles == []
    ensures forall t :: 0 <= t < b.spawned <==> t in b.finished
  {
    RangeTail(joined, b.spawned);
  }

  /** The tasks, and the handles that the future of `executor_scope` owns. */
  class ScopeRun {
    var spawned: nat
    var finished: set<TaskId>
    var abortRequested: set<TaskId>
    var taskHandles: seq<TaskId>     // of the `ScopeExecutor`
    var handles: seq<TaskId>         // drained from it and not joined yet
    var current: Option<TaskId>      // the handle that is awaited

    constructor ()
      ensures spawned == 0 && finished == {} && abortRequested == {}
      ensures taskHandles == [] && handles == [] && current == None
    {
      spawned, finished, abortRequested := 0, {}, {};
      taskHandles, handles, current := [], [], None;
    }

    ghost function Account(): Books reads this {
      Books(spawned, finished, current, handles, taskHandles)
    }

    ghost predicate Tracked(joined: nat) reads this {
      Tracks(Account(), joined)
    }

    /** Nothing that the scope spawned is left to run on. */
    ghost predicate Settled() reads this {
      forall t :: 0 <= t < spawned ==> t in finished || t in abortRequested
    }

    /** Dropping an abort-on-drop handle, or aborting through it: a finished task is not
        affected. */
    method Abort(task: TaskId)
      modifies this`abortRequested
      ensures abortRequested == old(abortRequested) + (if task in finished then {} else {task})
    {
      if task !in finished {
        abortRequested := abortRequested + {task};
      }
    }

    method SpawnTracked()
      modifies this`spawned, this`taskHandles
      ensures spawned == old(spawned) + 1
      ensures taskHandles == old(taskHandles) + [old(spawned)]
    {
      taskHandles := taskHandles + [spawned];
      spawned := spawned + 1;
    }

    /** `abort_all` */
    method AbortAll()
      modifies this`abortRequested
      ensures forall t :: t in taskHandles ==> t in finished || t in abortRequested
      ensures old(abortRequested) <= abortRequested
      ensures forall t :: t in abortRequested ==> t in old(abortRequested) || (t in taskHandles && t !in finished)
    {
      for i := 0 to |taskHandles|
        invariant forall j :: 0 <= j < i ==> taskHandles[j] in finished || taskHandles[j] in abortRequested
        invariant old(abortRequested) <= abortRequested
        invariant forall t :: t in abortRequested ==> t in old(abortRequested) || (t in taskHandles && t !in finished)
      {
        Abort(taskHandles[i]);
      }
    }

    /** Dropping the future drops its variables: the awaited handle, the drained
        handles and the `ScopeExecutor`, which aborts what it tracks. */
    method Drop(ghost joined: nat)
      requires Tracked(joined)
      modifies this`abortRequested, this`taskHandles, this`handles, this`current
      ensures Settled()
      ensures taskHandles == [] && handles == [] && current == None
      ensures old(abortRequested) <= abortRequested
      ensures forall t :: t in abortRequested ==> t in old(abortRequested) || t !in finished
    {
      ghost var awaited, rest, own := current, handles, taskHandles;
      if current.Some? {
        Abort(current.value);
        current := None;
      }
      while handles != []
        invariant |handles| <= |rest| && handles == rest[|rest| - |handles|..]
        invariant forall j :: 0 <= j < |rest| - |handles| ==> rest[j] in finished || rest[j] in abortRequested
        invariant current == None && taskHandles == own
        invariant awaited.Some? ==> awaited.value in finished || awaited.value in abortRequested
        invariant old(abortRequested) <= abortRequested
        invariant forall t :: t in abortRequested ==> t in old(abortRequested) || t !in finished
      {
        Abort(handles[0]);
        handles := handles[1..];
      }
      AbortAll();
      taskHandles := [];
      forall t | 0 <= t < spawned ensures t in finished || t in abortRequested {
        var next := joined + if awaited.Some? then 1 else 0;
        if next <= t {
          assert if own == [] then rest[t - next] == t else own[t - next] == t;
        }
      }
    }

    /** Tasks finish while the future is suspended. */
    method Suspend(tasks: set<TaskId>)
      modifies this`finished
      ensures finished == old(finished) + set t | t in tasks && t < spawned
    {
      finished := finished + set t | t in tasks && t < spawned;
    }

    /** The closure's part, which uses up one interlude for each `Yield`. */
    method RunClosure(closure: Closure, interludes: seq<Interlude>) returns (outcome: Outcome, used: nat)
      requires spawned == 0 && finished == {} && taskHandles == [] && current == None && handles == []
      modifies this`spawned, this`taskHandles, this`finished
      ensures Tracked(0) && Follows(finished, closure.acts, interludes, used)
      ensures outcome == Waiting || outcome == Dropped || outcome == Returned(0)
      ensures outcome.Returned? ==>
        closure.ending.Returns? && spawned == Spawns(closure.acts) && used == Yields(closure.acts)
      ensures !outcome.Returned? ==> outcome == Verdict(closure, interludes)
    {
      outcome, used := Returned(0), 0;
      ghost var acts := closure.acts;
      assert Follows(finished, acts, interludes, used) && acts[..0] == [];
      assert Spawns([]) == Yields([]) == 0;
      hide Spawns, Yields, SpawnedBy, Verdict, Follows;
      for i := 0 to |closure.acts|
        invariant Tracked(0) && current == None && handles == []
        invariant spawned == Spawns(acts[..i]) && used == Yields(acts[..i])
        invariant Follows(finished, acts, interludes, used)
      {
        AtAct(acts, i);
        match closure.acts[i]
        case Spawn =>
          SpawnTracked();
        case Yield =>
          StopsInClosure(closure, interludes, used, finished);
          if used == |interludes| {
            return Waiting, used;
          }
          match interludes[used]
          case DropFuture =>
            return Dropped, used;
          case Finish(tasks) =>
            FollowsOn(finished, acts, interludes, used, spawned);
            Suspend(tasks);
            used := used + 1;
      }
      assert acts[..|acts|] == acts;
      if closure.ending.Panics? {
        ComesToEnd(closure, interludes, used, finished);
        outcome := Dropped;
      }
    }

    /** Awaits the current handle. The result names no outcome when it is joined. */
    method Await(ghost closure: Closure, interludes: seq<Interlude>, before: nat, ghost joined: nat)
      returns (stopped: Option<Outcome>, used: nat)
      requires Tracked(joined) && current.Some?
      requires closure.ending.Returns? && spawned == Spawns(closure.acts) && Yields(closure.acts) <= before
      requires Follows(finished, closure.acts, interludes, before)
      modifies this`finished
      ensures Tracked(joined) && before <= used && Follows(finished, closure.acts, interludes, used)
      ensures stopped.None? <==> current.value in finished
      ensures stopped.Some? ==>
        stopped.value == Verdict(closure, interludes) && (stopped.value == Waiting || stopped.value == Dropped)
    {
      used := before;
      while current.value !in finished
        invariant Tracked(joined) && before <= used && Follows(finished, closure.acts, interludes, used)
        decreases |interludes| - used
      {
        StopsInJoin(closure, interludes, used, finished, current.value);
        if used == |interludes| {
          return Some(Waiting), used;
        }
        match interludes[used]
        case DropFuture =>
          return Some(Dropped), used;
        case Finish(tasks) =>
          SpawnedAfterAll(closure.acts, used);
          FollowsOn(finished, closure.acts, interludes, used, spawned);
          Suspend(tasks);
          used := used + 1;
      }
      return None, used;
    }

    /** Awaits the next drained handle, and drops it when it is joined. */
    method JoinNext(ghost closure: Closure, interludes: seq<Interlude>, before: nat, ghost joined: nat)
      returns (stopped: Option<Outcome>, used: nat)
      requires Tracked(joined) && current == None && taskHandles == [] && handles != []
      requires closure.ending.Returns? && spawned == Spawns(closure.acts) && Yields(closure.acts) <= before
      requires Follows(finished, closure.acts, interludes, before)
      modifies this`finished, this`abortRequested, this`handles, this`current
      ensures before <= used && Follows(finished, closure.acts, interludes, used)
      ensures abortRequested == old(abortRequested) && handles == old(handles)[1..]
      ensures stopped.None? ==> Tracked(joined + 1) && current == None
      ensures stopped.Some? ==> Tracked(joined) && current.Some? && current.value !in finished
      ensures stopped.Some? ==>
        stopped.value == Verdict(closure, interludes) && (stopped.value == Waiting || stopped.value == Dropped)
    {
      hide Tracks, Follows, Verdict;
      NextAwaited(Account(), joined);
      current, handles := Some(handles[0]), handles[1..];
      stopped, used := Await(closure, interludes, before, joined);
      if stopped.None? {
        NextJoined(Account(), joined);
        Abort(current.value);
        current := None;
      }
    }

    /** Joins the drained handles one after the other. */
    method JoinAll(ghost closure: Closure, interludes: seq<Interlude>, before: nat)
      returns (stopped: Option<Outcome>, ghost joined: nat)
      requires Tracked(0) && current == None && taskHandles == [] && abortRequested == {}
      requires closure.ending.Returns? && spawned == Spawns(closure.acts) && Yields(closure.acts) <= before
      requires Follows(finished, closure.acts, interludes, before)
      modifies this`finished, this`abortRequested, this`handles, this`current
      ensures stopped.None? ==> (forall t :: 0 <= t < spawned <==> t in finished)
      ensures stopped.None? ==> Verdict(closure, interludes) == Returned(closure.ending.value)
      ensures stopped.Some? ==>
        stopped.value == Verdict(closure, interludes) && (stopped.value == Waiting || stopped.value == Dropped)
      ensures stopped.Some? ==> Tracked(joined) && current.Some? && current.value !in finished
      ensures abortRequested == {}
    {
      var used := before;
      joined := 0;
      hide Tracks, Follows, Verdict;
      while handles != []
        invariant Tracked(joined) && current == None && abortRequested == {}
        invariant before <= used && Follows(finished, closure.acts, interludes, used)
        decreases |handles|
      {
        stopped, used := JoinNext(closure, interludes, used, joined);
        if stopped.Some? {
          return stopped, joined;
        }
        joined := joined + 1;
      }
      AllJoined(Account(), joined);
      ComesToEnd(closure, interludes, used, finished);
      stopped := None;
    }

    /** `executor_scope` */
    method ExecutorScope(closure: Closure, interludes: seq<Interlude>) returns (outcome: Outcome, ghost joined: nat)
      requires spawned == 0 && finished == {} && abortRequested == {}
      requires taskHandles == [] && handles == [] && current == None
      modifies this
      ensures outcome == Verdict(closure, interludes)
      ensures outcome.Returned? ==>
        closure.ending == Returns(outcome.value) && spawned == Spawns(closure.acts) &&
        (forall t :: 0 <= t < spawned <==> t in finished) && abortRequested == {}
      ensures outcome.Dropped? ==> Settled()
      ensures outcome.Waiting? ==> Tracked(joined) && abortRequested == {}
      ensures outcome.Waiting? && current.Some? ==> current.value !in finished
    {
      joined := 0;
      var used;
      outcome, used := RunClosure(closure, interludes);
      hide Verdict, Follows;
      if outcome.Dropped? {
        Drop(0);
        return;
      }
      if outcome.Waiting? {
        return;
      }
      Drained(Account(), 0);
      handles, taskHandles := taskHandles, [];
      var stopped;
      stopped, joined := JoinAll(closure, interludes, used);
      if stopped.None? {
        outcome := Returned(closure.ending.value);
      } else {
        outcome := stopped.value;
        if outcome.Dropped? {
          Drop(joined);
        }
      }
    }
  }

  /** With enough interludes, none of which drops the future, and every task finishing in
      one of them after it was spawned, a closure that returns makes the scope return; and
      when the future is never dropped, only a closure that still yields or a task that
      has not finished keeps it waiting. */
  lemma VerdictWithoutDrops(closure: Closure, interludes: seq<Interlude>)
    requires DropFuture !in interludes && closure.ending.Returns?
    ensures Verdict(closure, interludes) == Returned(closure.ending.value) <==>
      Yields(closure.acts) <= |interludes| &&
      forall t: TaskId :: t < Spawns(closure.acts) ==> FinishedIn(closure.acts, interludes, |interludes|, t)
    ensures Verdict(closure, interludes) == Returned(closure.ending.value) || Verdict(closure, interludes) == Waiting
  {
    forall i | 0 <= i < |interludes| ensures interludes[i].Finish? {
      assert interludes[i] in interludes;
    }
    FirstDropIs(interludes, |interludes|);
  }
}
