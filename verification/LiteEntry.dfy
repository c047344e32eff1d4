/**
 Entering the shared lite runtime: the entry lock, the executor context and the
 `driving` flag, on any number of threads.

 An entry through `ConfiguredExecutor::block_on` with Lite as its task executor takes
 the entry lock; one with another task executor sets that instead, and one without any
 keeps the executor it finds, and neither takes the lock. Every
 entry sets `driving` by a compare-and-swap, which panics when it fails. A return and
 a panic leave by the same guards, in the same order: the flag, the context, the lock.
 */
module LiteEntry {
  import opened Common

  type Thread = nat
  type Executor = nat

  const LITE: Executor := 0

  /** Where a thread inside `block_on` stands. */
  datatype Point = AtLock | AtContext | AtFlag | Driving | AtRestore | AtUnlock

  /** The task executor chosen for an entry; `previous` is what the context guard restores. */
  datatype Entry = Entry(point: Point, choice: Option<Executor>, previous: Option<Executor>)
  {
    predicate Locks() {
      choice == Some(LITE)
    }

    /** The executor that the entry's code sees. */
    function Inside(): Option<Executor> {
      if choice.Some? then choice else previous
    }
  }

  datatype State = State(
    lock: Option<Thread>,
    driving: bool,
    entries: map<Thread, Entry>,                 // threads inside `block_on`
    contexts: map<Thread, Option<Executor>>,     // `CURRENT_EXECUTOR`
    collided: set<Thread>)                       // threads whose compare-and-swap failed

  datatype Step = Begin(thread: Thread, choice: Option<Executor>) | Act(thread: Thread)

  ghost predicate Enabled(s: State, step: Step) {
    match step
    case Begin(th, _) => th in s.contexts && th !in s.entries
    case Act(th) =>
      th in s.contexts && th in s.entries && (s.entries[th].point.AtLock? ==> s.lock == None)
  }

  function MoveTo(s: State, e: Entry, th: Thread, point: Point): State {
    s.(entries := s.entries[th := e.(point := point)])
  }

  function Apply(s: State, step: Step): State
    requires Enabled(s, step)
  {
    match step
    case Begin(th, choice) =>
      s.(entries := s.entries[th := Entry(if choice == Some(LITE) then AtLock else AtContext, choice, None)])
    case Act(th) =>
      var e := s.entries[th];
      match e.point
      case AtLock =>
        MoveTo(s, e, th, AtContext).(lock := Some(th))
      case AtContext =>
        var entered := e.(previous := s.contexts[th]);
        MoveTo(s, entered, th, AtFlag).(contexts := s.contexts[th := entered.Inside()])
      case AtFlag =>
        if s.driving then MoveTo(s, e, th, AtRestore).(collided := s.collided + {th})
        else MoveTo(s, e, th, Driving).(driving := true)
      case Driving =>
        MoveTo(s, e, th, AtRestore).(driving := false)
      case AtRestore =>
        MoveTo(s, e, th, AtUnlock).(contexts := s.contexts[th := e.previous])
      case AtUnlock =>
        s.(entries := s.entries - {th}, lock := if e.Locks() then None else s.lock)
  }

  function HoldsLock(s: State, th: Thread): bool {
    th in s.entries && s.entries[th].Locks() && !s.entries[th].point.AtLock?
  }

  function Drives(s: State, th: Thread): bool {
    th in s.entries && s.entries[th].point.Driving?
  }

  /** The context that `th` has outside `block_on`. */
  function Outer(s: State, th: Thread): Option<Executor>
    requires th in s.contexts
  {
    if th in s.entries && s.entries[th].point in {AtFlag, Driving, AtRestore} then s.entries[th].previous
    else s.contexts[th]
  }

  ghost predicate LockOk(s: State) {
    forall th: Thread :: HoldsLock(s, th) <==> s.lock == Some(th)
  }

  ghost predicate DriverOk(s: State) {
    (forall th: Thread, other: Thread :: Drives(s, th) && Drives(s, other) ==> th == other) &&
    (s.driving <==> exists th: Thread :: Drives(s, th))
  }

  ghost predicate PointOk(s: State, th: Thread) {
    th in s.entries ==>
      (s.entries[th].point.AtLock? ==> s.entries[th].Locks()) &&
      (s.entries[th].point in {AtFlag, Driving, AtRestore} ==>
        th in s.contexts && s.contexts[th] == s.entries[th].Inside())
  }

  ghost predicate PointsOk(s: State) {
    forall th: Thread :: PointOk(s, th)
  }

  ghost predicate Inv(s: State) {
    LockOk(s) && DriverOk(s) && PointsOk(s)
  }

  lemma OthersStay(s: State, step: Step, other: Thread)
    requires Enabled(s, step) && other != step.thread
    ensures HoldsLock(Apply(s, step), other) <==> HoldsLock(s, other)
    ensures Drives(Apply(s, step), other) <==> Drives(s, other)
  {
  }

  lemma LockKept(s: State, step: Step)
    requires LockOk(s) && PointsOk(s) && Enabled(s, step)
    ensures LockOk(Apply(s, step))
  {
    var t, th := Apply(s, step), step.thread;
    assert PointOk(s, th);
    assert HoldsLock(s, th) <==> s.lock == Some(th);
    assert HoldsLock(t, th) <==> t.lock == Some(th);
    forall other: Thread | other != th ensures HoldsLock(t, other) <==> t.lock == Some(other) {
      OthersStay(s, step, other);
      assert HoldsLock(s, other) <==> s.lock == Some(other);
    }
  }

  lemma DriverKept(s: State, step: Step)
    requires DriverOk(s) && Enabled(s, step)
    ensures DriverOk(Apply(s, step))
  {
    var t, th := Apply(s, step), step.thread;
    assert Drives(s, th) ==> s.driving;
    assert t.driving <==> Drives(t, th) || (s.driving && !Drives(s, th));
    assert Drives(t, th) ==> !s.driving || Drives(s, th);
    forall other | other != th ensures Drives(t, other) <==> Drives(s, other) {
      OthersStay(s, step, other);
    }
    hide Apply, Enabled;
    if s.driving {
      var driver: Thread :| Drives(s, driver);
      assert driver != th ==> Drives(t, driver);
    }
  }

  lemma PointsKept(s: State, step: Step)
    requires PointsOk(s) && Enabled(s, step)
    ensures PointsOk(Apply(s, step))
  {
    forall th: Thread ensures PointOk(Apply(s, step), th) {
      assert PointOk(s, th);
      PointKept(s, step, th);
    }
  }

  lemma PointKept(s: State, step: Step, th: Thread)
    requires PointOk(s, th) && Enabled(s, step)
    ensures PointOk(Apply(s, step), th)
  {
  }

  lemma OuterKept(s: State, step: Step, th: Thread)
    requires PointOk(s, th) && Enabled(s, step) && th in s.contexts
    ensures th in Apply(s, step).contexts && Outer(Apply(s, step), th) == Outer(s, th)
  {
  }

  lemma InvPreserved(s: State, step: Step)
    requires Inv(s) && Enabled(s, step)
    ensures Inv(Apply(s, step))
  {
    LockKept(s, step);
    DriverKept(s, step);
    PointsKept(s, step);
  }

  // Whole runs

  ghost predicate Initial(s: State) {
    s.lock == None && !s.driving && s.entries == map[] && s.collided == {}
  }

  /** `steps` lead from `start` to `s`. */
  ghost predicate Reaches(start: State, steps: seq<Step>, s: State)
    decreases |steps|
  {
    if steps == [] then s == start
    else
      var last := |steps| - 1;
      exists before :: Reaches(start, steps[..last], before) && Enabled(before, steps[last])
                       && s == Apply(before, steps[last])
  }

  /** No entry of the run goes past the lock. */
  ghost predicate AllLock(steps: seq<Step>) {
    forall i :: 0 <= i < |steps| && steps[i].Begin? ==> steps[i].choice == Some(LITE)
  }

  /** A compare-and-swap fails only when some other thread drives, and then not both
      threads hold the entry lock. */
  lemma CollisionNeedsUnlocked(s: State, th: Thread)
    requires Inv(s) && Enabled(s, Act(th)) && s.entries[th].point.AtFlag?
    ensures th in Apply(s, Act(th)).collided && th !in s.collided ==>
      exists driver: Thread :: driver != th && Drives(s, driver) && !(HoldsLock(s, th) && HoldsLock(s, driver))
  {
    if s.driving {
      var driver: Thread :| Drives(s, driver);
      assert HoldsLock(s, th) <==> s.lock == Some(th);
      assert HoldsLock(s, driver) <==> s.lock == Some(driver);
      assert driver != th && !(HoldsLock(s, th) && HoldsLock(s, driver));
    }
  }

  ghost predicate Locked(s: State) {
    s.collided == {} && forall th: Thread :: th in s.entries ==> s.entries[th].Locks()
  }

  lemma LockedPreserved(s: State, step: Step)
    requires Inv(s) && Locked(s) && Enabled(s, step) && (step.Begin? ==> step.choice == Some(LITE))
    ensures Locked(Apply(s, step))
  {
    var th := step.thread;
    if step.Act? && s.entries[th].point.AtFlag? {
      LockOwner(s, th);
      forall other: Thread ensures !Drives(s, other) {
        if Drives(s, other) {
          LockOwner(s, other);
        }
      }
    }
  }

  lemma LockOwner(s: State, th: Thread)
    requires LockOk(s) && Locked(s) && th in s.entries && !s.entries[th].point.AtLock?
    ensures s.lock == Some(th)
  {
    assert HoldsLock(s, th);
  }

  lemma {:induction false} ReachableInv(start: State, steps: seq<Step>, s: State)
    requires Initial(start) && Reaches(start, steps, s)
    ensures Inv(s)
    ensures AllLock(steps) ==> Locked(s)
    ensures forall th: Thread :: th in start.contexts ==> th in s.contexts && Outer(s, th) == start.contexts[th]
    decreases |steps|
  {
    if steps != [] {
      var front, last := steps[..|steps| - 1], steps[|steps| - 1];
      var before :| Reaches(start, front, before) && Enabled(before, last) && s == Apply(before, last);
      ReachableInv(start, front, before);
      InvPreserved(before, last);
      forall th | th in start.contexts
        ensures th in s.contexts && Outer(s, th) == start.contexts[th]
      {
        assert PointOk(before, th);
        OuterKept(before, last, th);
      }
      if AllLock(steps) {
        assert AllLock(front);
        LockedPreserved(before, last);
      }
    }
  }

  /** When every entry takes the entry lock, no compare-and-swap ever fails. */
  lemma DrivingNeverFails(start: State, steps: seq<Step>, s: State)
    requires Initial(start) && Reaches(start, steps, s) && AllLock(steps)
    ensures s.collided == {}
  {
    ReachableInv(start, steps, s);
  }

  /** At most one thread drives, whether or not entries take the lock. */
  lemma OneDriver(start: State, steps: seq<Step>, s: State, a: Thread, b: Thread)
    requires Initial(start) && Reaches(start, steps, s)
    requires Drives(s, a) && Drives(s, b)
    ensures a == b && s.driving
  {
    ReachableInv(start, steps, s);
  }

  /** Outside `block_on` a thread has the context that it had at the start; while it
      drives it sees its task executor, which is Lite if it holds the entry lock, and
      otherwise what it saw before. */
  lemma ContextRestored(start: State, steps: seq<Step>, s: State, th: Thread)
    requires Initial(start) && Reaches(start, steps, s) && th in start.contexts
    ensures th in s.contexts
    ensures th !in s.entries ==> s.contexts[th] == start.contexts[th]
    ensures Drives(s, th) ==>
      s.contexts[th] == if s.entries[th].choice.Some? then s.entries[th].choice else start.contexts[th]
    ensures Drives(s, th) && HoldsLock(s, th) ==> s.contexts[th] == Some(LITE)
  {
    ReachableInv(start, steps, s);
    assert PointOk(s, th);
  }

  lemma Run(start: State, steps: seq<Step>, s: State, step: Step)
    requires Reaches(start, steps, s) && Enabled(s, step)
    ensures Reaches(start, steps + [step], Apply(s, step))
  {
    assert (steps + [step])[..|steps|] == steps;
  }

  /** Thread 1 enters past the lock. */
  lemma UnlockedDrives(start: State, s: State)
    requires start == State(None, false, map[], map[1 := None, 2 := None], {})
    requires s == State(None, true, map[1 := Entry(Driving, None, None)], map[1 := None, 2 := None], {})
    ensures Reaches(start, [] + [Begin(1, None)] + [Act(1)] + [Act(1)], s)
  {
    var s1 := start.(entries := map[1 := Entry(AtContext, None, None)]);
    var s2 := s1.(entries := map[1 := Entry(AtFlag, None, None)], contexts := s.contexts);
    assert Reaches(start, [], start);
    hide Reaches;
    Run(start, [], start, Begin(1, None));
    assert s1 == Apply(start, Begin(1, None));
    Run(start, [] + [Begin(1, None)], s1, Act(1));
    assert s2 == Apply(s1, Act(1));
    Run(start, [] + [Begin(1, None)] + [Act(1)], s2, Act(1));
    assert s == Apply(s2, Act(1));
  }

  /** One entry that goes past the lock is enough for another one, with the lock, to
      fail: its compare-and-swap comes while the first is driving. */
  lemma UnlockedEntryCollides(start: State, s: State)
    requires start == State(None, false, map[], map[1 := None, 2 := None], {})
    requires s == State(None, true, map[1 := Entry(Driving, None, None)], map[1 := None, 2 := None], {})
    ensures Initial(start) && Reaches(start, [] + [Begin(1, None)] + [Act(1)] + [Act(1)], s)
    ensures exists more, t :: Reaches(s, more, t) && t.collided == {2} && HoldsLock(t, 2)
  {
    UnlockedDrives(start, s);
    LockedFails(s);
  }

  lemma LockedFails(s: State)
    requires s.driving && s.lock == None && s.collided == {} && 2 in s.contexts && 2 !in s.entries
    ensures exists more, t :: Reaches(s, more, t) && t.collided == {2} && HoldsLock(t, 2)
  {
    var s1 := Apply(s, Begin(2, Some(LITE)));
    var s2 := Apply(s1, Act(2));
    var s3 := Apply(s2, Act(2));
    var t := Apply(s3, Act(2));
    assert Reaches(s, [], s);
    hide Reaches;
    Run(s, [], s, Begin(2, Some(LITE)));
    Run(s, [] + [Begin(2, Some(LITE))], s1, Act(2));
    Run(s, [] + [Begin(2, Some(LITE))] + [Act(2)], s2, Act(2));
    Run(s, [] + [Begin(2, Some(LITE))] + [Act(2)] + [Act(2)], s3, Act(2));
    assert t.collided == {2} && HoldsLock(t, 2);
  }

  // ----- One entry after the other -----

  /** An entry that nothing disturbs comes to drive, with its executor in place and the lock
      in its hands if it takes it, and leaves everything as it was. */
  lemma EntryRuns(start: State, steps: seq<Step>, s: State, th: Thread, choice: Option<Executor>)
      returns (driving: State, more: seq<Step>)
    requires Reaches(start, steps, s) && s.lock == None && !s.driving && s.entries == map[] && th in s.contexts
    ensures Drives(driving, th) && driving.driving && driving.collided == s.collided
    ensures th in driving.contexts && driving.contexts[th] == if choice.Some? then choice else s.contexts[th]
    ensures driving.lock == if choice == Some(LITE) then Some(th) else None
    ensures Reaches(start, more, s)
  {
    hide Reaches;
    var begun := Apply(s, Begin(th, choice));
    Run(start, steps, s, Begin(th, choice));
    more := steps + [Begin(th, choice)];
    var at := begun;
    if choice == Some(LITE) {
      Run(start, more, begun, Act(th));
      more, at := more + [Act(th)], Apply(begun, Act(th));
    }
    driving, more := ToFlag(start, more, at, th);
    more := Leaves(start, more, driving, th, s);
  }

  lemma Leaves(start: State, steps: seq<Step>, s: State, th: Thread, t: State) returns (more: seq<Step>)
    requires Reaches(start, steps, s) && Drives(s, th) && th in s.contexts
    requires t == s.(lock := if s.entries[th].Locks() then None else s.lock, driving := false,
                     entries := s.entries - {th}, contexts := s.contexts[th := s.entries[th].previous])
    ensures Reaches(start, more, t)
  {
    hide Reaches;
    var cleared := Apply(s, Act(th));
    Run(start, steps, s, Act(th));
    var restored := Apply(cleared, Act(th));
    Run(start, steps + [Act(th)], cleared, Act(th));
    Run(start, steps + [Act(th)] + [Act(th)], restored, Act(th));
    more := steps + [Act(th)] + [Act(th)] + [Act(th)];
    assert restored.entries - {th} == s.entries - {th};
    assert Apply(restored, Act(th)) == t;
  }

  lemma ToFlag(start: State, steps: seq<Step>, s: State, th: Thread) returns (driving: State, more: seq<Step>)
    requires Reaches(start, steps, s) && !s.driving && th in s.contexts && th in s.entries
    requires s.entries[th].point.AtContext?
    ensures Reaches(start, more, driving)
    ensures var e := s.entries[th].(previous := s.contexts[th]);
      driving == s.(driving := true, entries := s.entries[th := e.(point := Driving)],
                    contexts := s.contexts[th := e.Inside()])
  {
    Run(start, steps, s, Act(th));
    var entered := Apply(s, Act(th));
    Run(start, steps + [Act(th)], entered, Act(th));
    driving, more := Apply(entered, Act(th)), steps + [Act(th)] + [Act(th)];
  }
}
