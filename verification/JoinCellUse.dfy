/**
 What single operations on an `AbortableJoinHandle` do: a poll records what it sees, an
 abort reaches the task, and waiters really come to wait.
 */
module JoinCellUse {
  import opened JoinCell

  // ----- Polls and aborts among other operations -----

  /** A poll under the lock: a handle that is not ready leaves exactly this waiter pending on
      it, and a ready or empty one nobody, unless a later waiter has registered since. */
  lemma PollSees(s: State, th: Thread, c: Cell, w: Waiter, ready: bool)
    requires Enabled(s, Act(th, ready)) && s.ops[th] == PollInner(c, w)
    ensures var t := Apply(s, Act(th, ready));
            && t.cells == s.cells && t.ops[th] == UnlockPoll(c)
            && (c in s.lastRegistered && s.lastRegistered[c] == w ==>
                  && (!ready && s.cells[c].Full? ==>
                        c in t.pending && t.pending[c] == Polled(w, s.cells[c].handle) && c !in t.stale)
                  && (ready || s.cells[c].Empty? ==> c !in t.pending))
            && (!(c in s.lastRegistered && s.lastRegistered[c] == w) ==> t.pending == s.pending)
  {
  }

  /** Before it takes the lock, a poll has put its waker into the slot. */
  lemma PollRegisters(s: State, th: Thread, c: Cell, w: Waiter, ready: bool)
    requires Enabled(s, Act(th, ready)) && s.ops[th] == RegisterPoll(c, w)
    ensures var t := Apply(s, Act(th, ready));
            && c in t.slots && t.slots[c] == w && c in t.lastRegistered && t.lastRegistered[c] == w
            && c !in t.fired && c !in t.pending && t.ops[th] == LockPoll(c, w)
  {
  }

  /** An abort under the lock reaches the task whose handle the cell holds, and no other. */
  lemma AbortReaches(s: State, th: Thread, c: Cell, ready: bool)
    requires Enabled(s, Act(th, ready)) && s.ops[th] == AbortInner(c)
    ensures var t := Apply(s, Act(th, ready));
            && t.cells == s.cells && c in OwedBy(t, th)
            && t.aborted == s.aborted + if s.cells[c].Full? then {s.cells[c].handle} else {}
  {
  }

  // ----- Undisturbed -----

  ghost predicate Quiet(s: State) {
    s.ops == map[] && s.locks == map[]
  }

  lemma OneStep(start: State, steps: seq<Step>, s: State, step: Step, t: State) returns (more: seq<Step>)
    requires Reaches(start, steps, s) && Enabled(s, step) && t == Apply(s, step)
    ensures Reaches(start, more, t)
  {
    more := steps + [step];
    assert more[..|more| - 1] == steps && more[|more| - 1] == step;
    assert Reaches(start, more[..|more| - 1], s);
  }

  /** After the waiter has registered in the cell. */
  function Registered(s: State, c: Cell, w: Waiter): State {
    s.(slots := s.slots[c := w], lastRegistered := s.lastRegistered[c := w],
       fired := s.fired - {c}, pending := s.pending - {c})
  }

  /** After its poll of the handle: pending on it exactly if it is not ready. */
  function Seen(s: State, c: Cell, w: Waiter, ready: bool): State
    requires c in s.cells
  {
    if ready || s.cells[c].Empty? then s
    else s.(pending := s.pending[c := Polled(w, s.cells[c].handle)], stale := s.stale - {c})
  }

  /** With a thread at this point of its operation, before or under the lock of a cell. */
  function Before(s: State, th: Thread, op: Op): State {
    s.(ops := map[th := op])
  }

  function Under(s: State, th: Thread, op: Op, c: Cell): State {
    s.(ops := map[th := op], locks := map[c := th])
  }

  lemma PollBegins(s: State, th: Thread, c: Cell, w: Waiter)
    requires Quiet(s) && c in s.cells
    ensures Enabled(s, BeginPoll(th, c, w))
    ensures Apply(s, BeginPoll(th, c, w)) == Before(s, th, RegisterPoll(c, w))
  {
  }

  lemma PollRegistersAlone(s: State, th: Thread, c: Cell, w: Waiter, ready: bool)
    requires c in s.cells
    ensures var at := Before(s, th, RegisterPoll(c, w));
            Enabled(at, Act(th, ready)) &&
            Apply(at, Act(th, ready)) == Before(Registered(s, c, w), th, LockPoll(c, w))
  {
  }

  lemma PollLocks(s: State, th: Thread, c: Cell, w: Waiter, ready: bool)
    requires Quiet(s) && c in s.cells
    ensures var at := Before(s, th, LockPoll(c, w));
            Enabled(at, Act(th, ready)) &&
            Apply(at, Act(th, ready)) == Under(s, th, PollInner(c, w), c)
  {
  }

  lemma PollLooks(s: State, th: Thread, c: Cell, w: Waiter, ready: bool)
    requires c in s.cells && c in s.lastRegistered && s.lastRegistered[c] == w && c !in s.pending
    ensures var at := Under(s, th, PollInner(c, w), c);
            Enabled(at, Act(th, ready)) &&
            Apply(at, Act(th, ready)) == Under(Seen(s, c, w, ready), th, UnlockPoll(c), c)
  {
    var at := Under(s, th, PollInner(c, w), c);
    assert PollCell(at, c, w, ready) == Under(Seen(s, c, w, ready), th, PollInner(c, w), c) by {
      assert s.pending - {c} == s.pending;
    }
    hide PollCell, Seen;
  }

  lemma PollUnlocks(s: State, th: Thread, c: Cell, ready: bool)
    requires Quiet(s) && c in s.cells
    ensures var at := Under(s, th, UnlockPoll(c), c);
            Enabled(at, Act(th, ready)) && Apply(at, Act(th, ready)) == s
  {
    assert map[c := th] - {c} == map[];
    assert map[th := UnlockPoll(c)] - {th} == map[];
  }

  /** `poll`, when nothing interferes: the waiter is in the slot, and pending on the handle
      exactly if that is not ready. */
  lemma PollAlone(start: State, steps: seq<Step>, s: State, th: Thread, c: Cell, w: Waiter, ready: bool)
      returns (more: seq<Step>)
    requires Reaches(start, steps, s) && Quiet(s) && c in s.cells
    ensures Reaches(start, more, Seen(Registered(s, c, w), c, w, ready))
  {
    var t := Registered(s, c, w);
    var seen := Seen(t, c, w, ready);
    assert Quiet(t) && Quiet(seen) && c in t.cells && c in seen.cells;
    assert c in t.lastRegistered && t.lastRegistered[c] == w && c !in t.pending;
    PollBegins(s, th, c, w);
    PollRegistersAlone(s, th, c, w, ready);
    PollLocks(t, th, c, w, ready);
    PollLooks(t, th, c, w, ready);
    PollUnlocks(seen, th, c, ready);
    hide Reaches, Apply, Enabled, Before, Under, Registered, Seen;
    more := OneStep(start, steps, s, BeginPoll(th, c, w), Before(s, th, RegisterPoll(c, w)));
    more := OneStep(start, more, Before(s, th, RegisterPoll(c, w)), Act(th, ready),
                    Before(t, th, LockPoll(c, w)));
    more := OneStep(start, more, Before(t, th, LockPoll(c, w)), Act(th, ready),
                    Under(t, th, PollInner(c, w), c));
    more := OneStep(start, more, Under(t, th, PollInner(c, w), c), Act(th, ready),
                    Under(seen, th, UnlockPoll(c), c));
    more := OneStep(start, more, Under(seen, th, UnlockPoll(c), c), Act(th, ready), seen);
  }

  /** After the task in the cell has been asked to abort. */
  function Aborted(s: State, c: Cell): State
    requires c in s.cells
  {
    s.(aborted := s.aborted + (if s.cells[c].Full? then {s.cells[c].handle} else {}), stale := s.stale + {c})
  }

  /** After the waiter in the slot has been woken. */
  function Woken(s: State, c: Cell): State {
    if c in s.slots then s.(slots := s.slots - {c}, fired := s.fired + {c}) else s
  }

  lemma AbortBegins(s: State, th: Thread, c: Cell)
    requires Quiet(s) && c in s.cells
    ensures Enabled(s, BeginAbort(th, c))
    ensures Apply(s, BeginAbort(th, c)) == Before(s, th, LockAbort(c))
  {
  }

  lemma AbortLocks(s: State, th: Thread, c: Cell)
    requires Quiet(s) && c in s.cells
    ensures var at := Before(s, th, LockAbort(c));
            Enabled(at, Act(th, true)) && Apply(at, Act(th, true)) == Under(s, th, AbortInner(c), c)
  {
  }

  lemma AbortAsks(s: State, th: Thread, c: Cell)
    requires c in s.cells
    ensures var at := Under(s, th, AbortInner(c), c);
            Enabled(at, Act(th, true)) && Apply(at, Act(th, true)) == Under(Aborted(s, c), th, UnlockAbort(c), c)
  {
  }

  lemma AbortUnlocks(s: State, th: Thread, c: Cell)
    requires Quiet(s) && c in s.cells
    ensures var at := Under(s, th, UnlockAbort(c), c);
            Enabled(at, Act(th, true)) && Apply(at, Act(th, true)) == Before(s, th, WakeAbort(c))
  {
    assert map[c := th] - {c} == map[];
  }

  lemma AbortWakes(s: State, th: Thread, c: Cell)
    requires Quiet(s) && c in s.cells
    ensures var at := Before(s, th, WakeAbort(c));
            Enabled(at, Act(th, true)) && Apply(at, Act(th, true)) == Woken(s, c)
  {
    assert map[th := WakeAbort(c)] - {th} == map[];
  }

  /** Halfway through an abort, the task is asked to stop and the waiter not woken yet. */
  lemma AbortHalfway(start: State, steps: seq<Step>, s: State, th: Thread, c: Cell) returns (more: seq<Step>)
    requires Reaches(start, steps, s) && Quiet(s) && c in s.cells
    ensures Reaches(start, more, Under(Aborted(s, c), th, UnlockAbort(c), c))
  {
    AbortBegins(s, th, c);
    AbortLocks(s, th, c);
    AbortAsks(s, th, c);
    hide Reaches, Apply, Enabled, Before, Under, Aborted;
    more := OneStep(start, steps, s, BeginAbort(th, c), Before(s, th, LockAbort(c)));
    more := OneStep(start, more, Before(s, th, LockAbort(c)), Act(th, true), Under(s, th, AbortInner(c), c));
    more := OneStep(start, more, Under(s, th, AbortInner(c), c), Act(th, true),
                    Under(Aborted(s, c), th, UnlockAbort(c), c));
  }

  /** `abort`, when nothing interferes: the task of the handle in the cell is asked to abort,
      the handle stays, and the waiter in the slot is woken. */
  lemma AbortAlone(start: State, steps: seq<Step>, s: State, th: Thread, c: Cell) returns (more: seq<Step>)
    requires Reaches(start, steps, s) && Quiet(s) && c in s.cells
    ensures Reaches(start, more, Woken(Aborted(s, c), c))
  {
    more := AbortHalfway(start, steps, s, th, c);
    var t := Aborted(s, c);
    assert Quiet(t) && c in t.cells;
    AbortUnlocks(t, th, c);
    AbortWakes(t, th, c);
    hide Reaches, Apply, Enabled, Before, Under, Aborted, Woken;
    more := OneStep(start, more, Under(t, th, UnlockAbort(c), c), Act(th, true), Before(t, th, WakeAbort(c)));
    more := OneStep(start, more, Before(t, th, WakeAbort(c)), Act(th, true), Woken(t, c));
  }

  /** Waiting does happen: a waiter has seen Pending, its handle is then aborted under it, and
      it is unwoken with a thread that owes the wake. */
  lemma WaitingHappens() returns (start: State, steps: seq<Step>, s: State)
    ensures Initial(start) && Reaches(start, steps, s)
    ensures 0 in s.pending && s.pending[0] == Polled(9, 1) && 0 in s.stale && 0 !in s.fired
    ensures 0 in s.slots && s.slots[0] == 9 && 0 in OwedBy(s, 6) && 1 in s.aborted
  {
    start := State(map[0 := Full(1)], map[], map[], map[], {}, {}, map[], {}, map[], {});
    var waiting := WaiterAt(start);
    hide Seen, Registered;
    assert Reaches(start, [], start);
    steps := PollAlone(start, [], start, 5, 0, 9, false);
    hide Reaches;
    steps := AbortHalfway(start, steps, waiting, 6, 0);
    s := Under(Aborted(waiting, 0), 6, UnlockAbort(0), 0);
  }

  lemma WaiterAt(start: State) returns (waiting: State)
    requires start == State(map[0 := Full(1)], map[], map[], map[], {}, {}, map[], {}, map[], {})
    ensures waiting == Seen(Registered(start, 0, 9), 0, 9, false)
    ensures Initial(start) && Quiet(start) && Quiet(waiting) && 0 in waiting.cells && waiting.cells[0] == Full(1)
    ensures 0 in waiting.slots && waiting.slots[0] == 9 && 0 !in waiting.fired
    ensures 0 in waiting.pending && waiting.pending[0] == Polled(9, 1)
  {
    waiting := Seen(Registered(start, 0, 9), 0, 9, false);
  }
}
