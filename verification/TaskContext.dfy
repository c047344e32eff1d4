/**
 The executor that code sees: a thread-local cell that guards replace and restore.

 A run of code on one thread is a script: it looks the executor up, spawns, panics,
 catches panics, polls and drops futures that carry their executor, and blocks on
 futures. The cell must give code exactly the innermost executor that encloses it.
 */
module TaskContext {
  import opened Common

  datatype Executor = Lite | Other(id: nat)

  const DEFAULT := Other(0)

  datatype Code =
    | Observe                                                      // `executor()`
    | Panic
    | Spawn(choice: Option<Executor>, task: seq<Code>)
    | Catch(body: seq<Code>)
    | Within(executor: Executor, body: seq<Code>, dropped: seq<Code>)    // a `WithExecutor`
    | BlockOn(choice: Option<Executor>, body: seq<Code>, dropped: seq<Code>)

  /** A thread that blocks on a lock it holds itself never goes on. */
  datatype Ending = Completes | Panics | Deadlocks

  /** A `WithExecutor` made for a spawned task. */
  datatype Spawned = Spawned(executor: Executor, task: seq<Code>)

  datatype Trace = Trace(seen: seq<Executor>, spawned: seq<Spawned>, ending: Ending)

  function OrElse(chosen: Option<Executor>, fallback: Executor): Executor {
    match chosen case Some(e) => e case None => fallback
  }

  /** What happens around a piece of code: the enclosing executor, and whether the
      thread has entered the lite runtime. */
  datatype Env = Env(enclosing: Option<Executor>, entered: bool) {
    function Executor(): Executor {
      OrElse(enclosing, DEFAULT)
    }
  }

  /** The first part, and after it the second, even when the first panics. */
  function Always(first: Trace, second: Trace): Trace {
    if first.ending.Deadlocks? then first
    else Trace(first.seen + second.seen, first.spawned + second.spawned,
               if second.ending.Completes? then first.ending else second.ending)
  }

  /** The first part, and the second unless the first does not complete. */
  function Next(first: Trace, second: Trace): Trace {
    if first.ending.Completes? then Always(first, second) else first
  }

  /** What code does when every piece of it sees the innermost executor around it: the
      enclosing executor is passed down, and there is no cell. */
  function Scoped(codes: seq<Code>, env: Env): Trace
    decreases codes
  {
    if codes == [] then Trace([], [], Completes)
    else Next(ScopedOne(codes[0], env), Scoped(codes[1..], env))
  }

  function ScopedOne(code: Code, env: Env): Trace
    decreases code
  {
    match code
    case Observe => Trace([env.Executor()], [], Completes)
    case Panic => Trace([], [], Panics)
    case Spawn(choice, task) => Trace([], [Spawned(OrElse(choice, env.Executor()), task)], Completes)
    case Catch(body) =>
      var t := Scoped(body, env);
      if t.ending.Panics? then t.(ending := Completes) else t
    case Within(executor, body, dropped) =>
      var inside := env.(enclosing := Some(executor));
      Always(Scoped(body, inside), Scoped(dropped, inside))
    case BlockOn(choice, body, dropped) =>
      if choice == Some(Lite) && env.entered then Trace([], [], Deadlocks) else
      var inside := Env(Some(OrElse(choice, env.Executor())), env.entered || choice == Some(Lite));
      Always(Scoped(body, inside), Scoped(dropped, inside))
  }

  lemma NextAssociative(a: Trace, b: Trace, c: Trace)
    ensures Next(Next(a, b), c) == Next(a, Next(b, c))
  {
    if a.ending.Completes? && b.ending.Completes? {
      assert (a.seen + b.seen) + c.seen == a.seen + (b.seen + c.seen);
      assert (a.spawned + b.spawned) + c.spawned == a.spawned + (b.spawned + c.spawned);
    }
  }

  /** Whatever runs first, what follows sees the executor that was there before. */
  lemma {:induction false} SeesTheSameAfter(a: seq<Code>, b: seq<Code>, env: Env)
    ensures Scoped(a + b, env) == Next(Scoped(a, env), Scoped(b, env))
    decreases |a|
  {
    if a == [] {
      assert a + b == b;
      var rest := Scoped(b, env);
      assert [] + rest.seen == rest.seen && [] + rest.spawned == rest.spawned;
    } else {
      assert (a + b)[1..] == a[1..] + b;
      SeesTheSameAfter(a[1..], b, env);
      NextAssociative(ScopedOne(a[0], env), Scoped(a[1..], env), Scoped(b, env));
    }
  }

  // ----- Which executor code sees -----

  /** What encloses a place in a script: a `WithExecutor` or `block_on`, of which it is in
      the part that is polled or in the drop, or a `catch_unwind`. */
  datatype Frame =
    | InWithin(executor: Executor, dropped: bool, other: seq<Code>)
    | InBlockOn(choice: Option<Executor>, dropped: bool, other: seq<Code>)
    | InCatch

  /** The script with `code` at that place, outermost frame first; the other part of each
      construct is arbitrary. */
  function Plug(frames: seq<Frame>, code: Code): seq<Code> {
    if frames == [] then [code] else
    var inner := Plug(frames[1..], code);
    match frames[0]
    case InWithin(e, dropped, other) => [if dropped then Within(e, other, inner) else Within(e, inner, other)]
    case InBlockOn(c, dropped, other) => [if dropped then BlockOn(c, other, inner) else BlockOn(c, inner, other)]
    case InCatch => [Catch(inner)]
  }

  predicate SetsExecutor(f: Frame) {
    f.InWithin? || (f.InBlockOn? && f.choice != None)
  }

  function Chosen(f: Frame): Option<Executor> {
    if f.InWithin? then Some(f.executor) else if f.InBlockOn? then f.choice else None
  }

  /** `seen` is the executor of the innermost enclosing construct that sets one, or that of
      the thread, or the default. */
  ghost predicate IsInnermost(frames: seq<Frame>, enclosing: Option<Executor>, seen: Executor) {
    (forall i :: 0 <= i < |frames| && SetsExecutor(frames[i]) &&
                 (forall j :: i < j < |frames| ==> !SetsExecutor(frames[j])) ==>
       Chosen(frames[i]) == Some(seen)) &&
    ((forall i :: 0 <= i < |frames| ==> !SetsExecutor(frames[i])) ==>
       seen == match enclosing { case Some(e) => e case None => Other(0) })
  }

  /** The trace has this part, somewhere if code runs before it, and else first. */
  ghost predicate Has<T>(all: seq<T>, part: T, first: bool) {
    if first then all != [] && all[0] == part else part in all
  }

  ghost predicate NothingBefore(frames: seq<Frame>) {
    forall i :: 0 <= i < |frames| ==> frames[i].InCatch? || !frames[i].dropped
  }

  /** Code at any place in a script sees the executor of the innermost construct around it
      that sets one; and what it spawns gets the chosen executor, or the one seen there. */
  lemma {:induction false} SeesInnermost(frames: seq<Frame>, env: Env, seen: Executor,
                                         choice: Option<Executor>, task: seq<Code>)
    requires IsInnermost(frames, env.enclosing, seen)
    ensures var t := Scoped(Plug(frames, Observe), env);
            !t.ending.Deadlocks? ==> Has(t.seen, seen, NothingBefore(frames))
    ensures var t := Scoped(Plug(frames, Spawn(choice, task)), env);
            !t.ending.Deadlocks? ==>
              Has(t.spawned, Spawned(match choice { case Some(e) => e case None => seen }, task), NothingBefore(frames))
    decreases |frames|
  {
    if frames == [] {
      assert [Observe][1..] == [] && [Spawn(choice, task)][1..] == [];
    } else {
      var inside := Inside(frames[0], env);
      InnermostOn(frames, env.enclosing, inside.enclosing, seen);
      SeesInnermost(frames[1..], inside, seen, choice, task);
      assert NothingBefore(frames) ==> NothingBefore(frames[1..]) by {
        assert forall i :: 0 <= i < |frames| - 1 ==> frames[1..][i] == frames[i + 1];
      }
      FrameHas(frames, env, Observe);
      FrameHas(frames, env, Spawn(choice, task));
    }
  }

  /** What encloses the code inside a frame. */
  function Inside(f: Frame, env: Env): Env {
    match f
    case InWithin(e, _, _) => env.(enclosing := Some(e))
    case InBlockOn(c, _, _) => Env(Some(OrElse(c, env.Executor())), env.entered || c == Some(Lite))
    case InCatch => env
  }

  lemma InnermostOn(frames: seq<Frame>, outer: Option<Executor>, inner: Option<Executor>, seen: Executor)
    requires frames != [] && IsInnermost(frames, outer, seen)
    requires match frames[0]
             case InWithin(e, _, _) => inner == Some(e)
             case InBlockOn(Some(e), _, _) => inner == Some(e)
             case InBlockOn(None, _, _) => inner == Some(match outer { case Some(e) => e case None => Other(0) })
             case InCatch => inner == outer
    ensures IsInnermost(frames[1..], inner, seen)
  {
    var rest := frames[1..];
    assert forall i :: 0 <= i < |rest| ==> rest[i] == frames[i + 1];
    if forall i :: 0 <= i < |rest| ==> !SetsExecutor(rest[i]) {
      assert forall j :: 0 < j < |frames| ==> frames[j] == rest[j - 1];
      assert forall j :: 0 < j < |frames| ==> !SetsExecutor(frames[j]);
      assert SetsExecutor(frames[0]) || !SetsExecutor(frames[0]);
    }
    forall i | 0 <= i < |rest| && SetsExecutor(rest[i]) && (forall j :: i < j < |rest| ==> !SetsExecutor(rest[j]))
      ensures Chosen(rest[i]) == Some(seen)
    {
      assert SetsExecutor(frames[i + 1]);
      forall j | i + 1 < j < |frames| ensures !SetsExecutor(frames[j]) {
        assert frames[j] == rest[j - 1];
      }
    }
  }

  /** Unless it deadlocks, `t` has all that `part` sees and spawns, in front if asked. */
  ghost predicate Carries(t: Trace, part: Trace, front: bool) {
    !t.ending.Deadlocks? ==>
      && !part.ending.Deadlocks?
      && (forall x :: x in part.seen ==> x in t.seen)
      && (forall x :: x in part.spawned ==> x in t.spawned)
      && (front ==> part.seen <= t.seen && part.spawned <= t.spawned)
  }

  /** A frame keeps what its inner part sees and spawns. */
  lemma FrameHas(frames: seq<Frame>, env: Env, code: Code)
    requires frames != []
    ensures Carries(Scoped(Plug(frames, code), env), Scoped(Plug(frames[1..], code), Inside(frames[0], env)),
                    frames[0].InCatch? || !frames[0].dropped)
  {
    var inner := Plug(frames[1..], code);
    assert |Plug(frames, code)| == 1;
    ScopedSingle(Plug(frames, code)[0], env);
    assert [Plug(frames, code)[0]] == Plug(frames, code);
    match frames[0]
    case InWithin(e, dropped, other) =>
      hide Carries, Scoped;
      AlwaysCarries(Scoped(if dropped then other else inner, Inside(frames[0], env)),
                    Scoped(if dropped then inner else other, Inside(frames[0], env)));
    case InBlockOn(c, dropped, other) =>
      StuckCarries(Scoped(inner, Inside(frames[0], env)), !dropped);
      hide Carries, Scoped;
      AlwaysCarries(Scoped(if dropped then other else inner, Inside(frames[0], env)),
                    Scoped(if dropped then inner else other, Inside(frames[0], env)));
    case InCatch =>
  }

  lemma StuckCarries(part: Trace, front: bool)
    ensures Carries(Trace([], [], Deadlocks), part, front)
  {
  }

  lemma ScopedSingle(code: Code, env: Env)
    ensures Scoped([code], env) == ScopedOne(code, env)
  {
    assert [code][1..] == [];
    var t := ScopedOne(code, env);
    assert t.seen + [] == t.seen && t.spawned + [] == t.spawned;
  }

  lemma AlwaysCarries(first: Trace, second: Trace)
    ensures Carries(Always(first, second), first, true) && Carries(Always(first, second), second, false)
  {
  }

  /** A thread: its `CURRENT_EXECUTOR`, and whether it holds `LITE_ENTRY_LOCK`. */
  class Thread {
    var current: Option<Executor>
    var holdsEntryLock: bool
    var seen: seq<Executor>
    var spawned: seq<Spawned>

    ghost function Around(): Env reads this {
      Env(current, holdsEntryLock)
    }

    /** `executor()` */
    function CurrentExecutor(): Executor reads this {
      OrElse(current, DEFAULT)
    }

    /** Unless the thread is stuck, its cell and its lock are as they were, and in any
        case code saw and spawned what it does when executors are passed down. */
    twostate predicate RanAs(t: Trace) reads this {
      seen == old(seen) + t.seen && spawned == old(spawned) + t.spawned &&
      (!t.ending.Deadlocks? ==> current == old(current) && holdsEntryLock == old(holdsEntryLock))
    }

    method Run(codes: seq<Code>) returns (ending: Ending)
      modifies this
      ensures RanAs(Scoped(codes, old(Around()))) && ending == Scoped(codes, old(Around())).ending
      decreases codes, 0
    {
      ending := Completes;
      if codes == [] {
        return;
      }
      ending := RunOne(codes[0]);
      if ending.Completes? {
        ending := Run(codes[1..]);
      }
    }

    method RunOne(code: Code) returns (ending: Ending)
      modifies this
      ensures RanAs(ScopedOne(code, old(Around()))) && ending == ScopedOne(code, old(Around())).ending
      decreases code, 3
    {
      match code
      case Observe =>
        seen := seen + [CurrentExecutor()];
        return Completes;
      case Panic =>
        return Panics;
      case Spawn(choice, task) =>
        spawned := spawned + [Spawned(OrElse(choice, CurrentExecutor()), task)];
        return Completes;
      case Catch(body) =>
        ending := Run(body);
        return if ending.Panics? then Completes else ending;
      case Within(executor, body, dropped) =>
        ending := PollAndDrop(executor, body, dropped, code);
      case BlockOn(choice, body, dropped) =>
        ending := BlockOn(choice, body, dropped);
    }

    /** `ConfiguredExecutor::block_on`; the guard drops its context before the lock. */
    method BlockOn(choice: Option<Executor>, body: seq<Code>, dropped: seq<Code>) returns (ending: Ending)
      modifies this
      ensures var t := ScopedOne(Code.BlockOn(choice, body, dropped), old(Around()));
        RanAs(t) && ending == t.ending
      decreases Code.BlockOn(choice, body, dropped), 2
    {
      hide Scoped;
      var locks := choice == Some(Lite);
      if locks {
        if holdsEntryLock {
          return Deadlocks;
        }
        holdsEntryLock := true;
      }
      var previous := current;
      if choice.Some? {
        current := choice;
      }
      ending := PollAndDrop(CurrentExecutor(), body, dropped, Code.BlockOn(choice, body, dropped));
      if ending.Deadlocks? {
        return;
      }
      if choice.Some? {
        current := previous;
      }
      if locks {
        holdsEntryLock := false;
      }
    }

    /** A `WithExecutor` is polled, and then dropped, even when it panics. */
    method PollAndDrop(executor: Executor, body: seq<Code>, dropped: seq<Code>, ghost code: Code)
      returns (ending: Ending)
      requires (code.Within? || code.BlockOn?) && code.body == body && code.dropped == dropped
      modifies this
      ensures var inside := old(Around()).(enclosing := Some(executor));
        var t := Always(Scoped(body, inside), Scoped(dropped, inside));
        RanAs(t) && ending == t.ending
      decreases code, 1
    {
      hide Scoped;
      ending := WithExecutor(executor, body);
      if !ending.Deadlocks? {
        var second := WithExecutor(executor, dropped);
        ending := if second.Completes? then ending else second;
      }
    }

    /** `with_executor`: the guard restores the cell when the body returns or panics. */
    method WithExecutor(executor: Executor, body: seq<Code>) returns (ending: Ending)
      modifies this
      ensures var t := Scoped(body, old(Around()).(enclosing := Some(executor)));
        RanAs(t) && ending == t.ending
      decreases body, 1
    {
      var previous := current;
      current := Some(executor);
      ending := Run(body);
      if !ending.Deadlocks? {
        current := previous;
      }
    }

    /** A spawned task runs where it is polled, and sees the executor it was spawned
        under or with. */
    method PollSpawned(t: Spawned) returns (ending: Ending)
      modifies this
      ensures RanAs(Scoped(t.task, old(Around()).(enclosing := Some(t.executor))))
    {
      ending := WithExecutor(t.executor, t.task);
    }
  }
}
