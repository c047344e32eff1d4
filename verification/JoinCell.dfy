/**
 `AbortableJoinHandle`: a lock around a join handle and a slot for one waker,
 shared by clones on any threads.

 `replace`, `abort` and `poll` are broken into their atomic actions; any number of
 threads run them on any cells, and their actions interleave freely. An action
 that takes a lock waits until the lock is free.
 */
module JoinCell {

  type Thread = nat
  type Cell = nat
  type HandleId = nat
  type Waiter = nat

  /** What a cell holds: the handle of a task, or `JoinHandle::empty()`. */
  datatype Held = Empty | Full(handle: HandleId)

  /** What a thread will do next. */
  datatype Op =
    | LockSource(dst: Cell, src: Cell)
    | TakeSource(dst: Cell, src: Cell)
    | UnlockSource(dst: Cell, src: Cell, moved: Held)
    | WakeSource(dst: Cell, src: Cell, moved: Held)
    | LockDest(dst: Cell, moved: Held)
    | SwapDest(dst: Cell, moved: Held)
    | UnlockDest(dst: Cell, previous: Held)
    | DropPrevious(dst: Cell, previous: Held)
    | WakeDest(dst: Cell)
    | LockAbort(cell: Cell)
    | AbortInner(cell: Cell)
    | UnlockAbort(cell: Cell)
    | WakeAbort(cell: Cell)
    | RegisterPoll(cell: Cell, waiter: Waiter)
    | LockPoll(cell: Cell, waiter: Waiter)
    | PollInner(cell: Cell, waiter: Waiter)
    | UnlockPoll(cell: Cell)

  /** The last registered waiter of a cell saw Pending from this handle. */
  datatype Polled = Polled(waiter: Waiter, handle: HandleId)

  datatype State = State(
    cells: map<Cell, Held>,
    locks: map<Cell, Thread>,
    slots: map<Cell, Waiter>,        // wakers waiting in a cell's `AtomicWaker`
    ops: map<Thread, Op>,
    dropped: set<HandleId>,
    aborted: set<HandleId>,
    lastRegistered: map<Cell, Waiter>,
    fired: set<Cell>,                // the last registered waker has been woken
    pending: map<Cell, Polled>,      // result of the last registered waiter's poll
    stale: set<Cell>)                // swapped or aborted since that poll

  datatype Step =
    | BeginReplace(thread: Thread, dst: Cell, src: Cell)
    | BeginAbort(thread: Thread, cell: Cell)
    | BeginPoll(thread: Thread, cell: Cell, waiter: Waiter)
    | Act(thread: Thread, ready: bool)
    | DropLast(cell: Cell)  // the last clone goes: nobody else can refer to the cell

  /** The shared effect of an action. */
  datatype Effect =
    | TakeLock(cell: Cell)
    | ReleaseLock(cell: Cell)
    | Exchange(cell: Cell, held: Held)
    | WakeSlot(cell: Cell)
    | Discard(held: Held)
    | RequestAbort(cell: Cell)
    | Register(cell: Cell, waiter: Waiter)
    | PollHandle(cell: Cell, waiter: Waiter)

  datatype Next = Finished | Continue(op: Op)

  function EffectOf(op: Op): Effect {
    match op
    case LockSource(_, src) => TakeLock(src)
    case TakeSource(_, src) => Exchange(src, Empty)
    case UnlockSource(_, src, _) => ReleaseLock(src)
    case WakeSource(_, src, _) => WakeSlot(src)
    case LockDest(dst, _) => TakeLock(dst)
    case SwapDest(dst, moved) => Exchange(dst, moved)
    case UnlockDest(dst, _) => ReleaseLock(dst)
    case DropPrevious(_, previous) => Discard(previous)
    case WakeDest(dst) => WakeSlot(dst)
    case LockAbort(c) => TakeLock(c)
    case AbortInner(c) => RequestAbort(c)
    case UnlockAbort(c) => ReleaseLock(c)
    case WakeAbort(c) => WakeSlot(c)
    case RegisterPoll(c, w) => Register(c, w)
    case LockPoll(c, _) => TakeLock(c)
    case PollInner(c, w) => PollHandle(c, w)
    case UnlockPoll(c) => ReleaseLock(c)
  }

  /** Where the thread stands afterwards; `found` is what an exchange took out. */
  function After(op: Op, found: Held): Next {
    match op
    case LockSource(dst, src) => Continue(TakeSource(dst, src))
    case TakeSource(dst, src) => Continue(UnlockSource(dst, src, found))
    case UnlockSource(dst, src, moved) => Continue(WakeSource(dst, src, moved))
    case WakeSource(dst, src, moved) => Continue(LockDest(dst, moved))
    case LockDest(dst, moved) => Continue(SwapDest(dst, moved))
    case SwapDest(dst, _) => Continue(UnlockDest(dst, found))
    case UnlockDest(dst, previous) => Continue(DropPrevious(dst, previous))
    case DropPrevious(dst, _) => Continue(WakeDest(dst))
    case WakeDest(_) => Finished
    case LockAbort(c) => Continue(AbortInner(c))
    case AbortInner(c) => Continue(UnlockAbort(c))
    case UnlockAbort(c) => Continue(WakeAbort(c))
    case WakeAbort(_) => Finished
    case RegisterPoll(c, w) => Continue(LockPoll(c, w))
    case LockPoll(c, w) => Continue(PollInner(c, w))
    case PollInner(c, _) => Continue(UnlockPoll(c))
    case UnlockPoll(_) => Finished
  }

  /** The locks a thread holds at this point. */
  function Holds(op: Op): set<Cell> {
    match op
    case TakeSource(_, src) => {src}
    case UnlockSource(_, src, _) => {src}
    case SwapDest(dst, _) => {dst}
    case UnlockDest(dst, _) => {dst}
    case AbortInner(c) => {c}
    case UnlockAbort(c) => {c}
    case PollInner(c, _) => {c}
    case UnlockPoll(c) => {c}
    case _ => {}
  }

  /** The cells a thread has changed and not woken yet. */
  function OwesWake(op: Op): set<Cell> {
    match op
    case UnlockSource(_, src, _) => {src}
    case WakeSource(_, src, _) => {src}
    case UnlockDest(dst, _) => {dst}
    case DropPrevious(dst, _) => {dst}
    case WakeDest(dst) => {dst}
    case UnlockAbort(c) => {c}
    case WakeAbort(c) => {c}
    case _ => {}
  }

  /** The handle in a thread's local variables. */
  function Carried(op: Op): Held {
    match op
    case UnlockSource(_, _, moved) => moved
    case WakeSource(_, _, moved) => moved
    case LockDest(_, moved) => moved
    case SwapDest(_, moved) => moved
    case UnlockDest(_, previous) => previous
    case DropPrevious(_, previous) => previous
    case _ => Empty
  }

  function CellsOf(op: Op): set<Cell> {
    match op
    case LockSource(dst, src) => {dst, src}
    case TakeSource(dst, src) => {dst, src}
    case UnlockSource(dst, src, _) => {dst, src}
    case WakeSource(dst, src, _) => {dst, src}
    case LockDest(dst, _) => {dst}
    case SwapDest(dst, _) => {dst}
    case UnlockDest(dst, _) => {dst}
    case DropPrevious(dst, _) => {dst}
    case WakeDest(dst) => {dst}
    case LockAbort(c) => {c}
    case AbortInner(c) => {c}
    case UnlockAbort(c) => {c}
    case WakeAbort(c) => {c}
    case RegisterPoll(c, _) => {c}
    case LockPoll(c, _) => {c}
    case PollInner(c, _) => {c}
    case UnlockPoll(c) => {c}
  }

  // The same for a thread, which may have no operation under way.

  function HeldBy(s: State, th: Thread): set<Cell> {
    if th in s.ops then Holds(s.ops[th]) else {}
  }

  function OwedBy(s: State, th: Thread): set<Cell> {
    if th in s.ops then OwesWake(s.ops[th]) else {}
  }

  function CarriedBy(s: State, th: Thread): Held {
    if th in s.ops then Carried(s.ops[th]) else Empty
  }

  // ----- The steps -----

  /** An action runs at once unless it needs a lock that is taken. */
  predicate Free(s: State, effect: Effect) {
    effect.TakeLock? ==> effect.cell !in s.locks
  }

  predicate Enabled(s: State, step: Step) {
    match step
    case BeginReplace(th, dst, src) => th !in s.ops && dst in s.cells && src in s.cells
    case BeginAbort(th, c) => th !in s.ops && c in s.cells
    case BeginPoll(th, c, _) => th !in s.ops && c in s.cells
    case Act(th, _) =>
      th in s.ops && CellsOf(s.ops[th]) <= s.cells.Keys && Free(s, EffectOf(s.ops[th]))
    case DropLast(c) => c in s.cells && forall th | th in s.ops :: c !in CellsOf(s.ops[th])
  }

  /** What the exchange of `effect` would take out of its cell. */
  function Found(s: State, effect: Effect): Held {
    if effect.Exchange? && effect.cell in s.cells then s.cells[effect.cell] else Empty
  }

  /** `poll` on the locked inner handle; an empty handle is always ready. */
  function PollCell(s: State, c: Cell, w: Waiter, ready: bool): State {
    if c !in s.cells || c !in s.lastRegistered || s.lastRegistered[c] != w then s
    else if ready || s.cells[c].Empty? then s.(pending := s.pending - {c})
    else s.(pending := s.pending[c := Polled(w, s.cells[c].handle)], stale := s.stale - {c})
  }

  function Perform(s: State, th: Thread, effect: Effect, ready: bool): State {
    match effect
    case TakeLock(c) => s.(locks := s.locks[c := th])
    case ReleaseLock(c) => s.(locks := s.locks - {c})
    case Exchange(c, held) => s.(cells := s.cells[c := held], stale := s.stale + {c})
    case WakeSlot(c) =>
      if c in s.slots then s.(slots := s.slots - {c}, fired := s.fired + {c}) else s
    case Discard(held) => s.(dropped := s.dropped + if held.Full? then {held.handle} else {})
    case RequestAbort(c) =>
      s.(aborted := s.aborted + (if c in s.cells && s.cells[c].Full? then {s.cells[c].handle} else {}),
         stale := s.stale + {c})
    case Register(c, w) =>
      s.(slots := s.slots[c := w], lastRegistered := s.lastRegistered[c := w],
         fired := s.fired - {c}, pending := s.pending - {c})
    case PollHandle(c, w) => PollCell(s, c, w, ready)
  }

  /** The thread moves on. */
  function Advance(s: State, th: Thread, next: Next): State {
    match next
    case Finished => s.(ops := s.ops - {th})
    case Continue(op) => s.(ops := s.ops[th := op])
  }

  function ActStep(s: State, th: Thread, ready: bool): State
    requires th in s.ops
  {
    var effect := EffectOf(s.ops[th]);
    Advance(Perform(s, th, effect, ready), th, After(s.ops[th], Found(s, effect)))
  }

  function HandleIn(held: Held): set<HandleId> {
    if held.Full? then {held.handle} else {}
  }

  /** `InnerHandle::drop` aborts what the cell holds, and then the cell is gone. */
  function DropCell(s: State, c: Cell): State
    requires c in s.cells
  {
    var lost := HandleIn(s.cells[c]);
    s.(cells := s.cells - {c}, slots := s.slots - {c}, lastRegistered := s.lastRegistered - {c},
       fired := s.fired - {c}, pending := s.pending - {c}, stale := s.stale - {c},
       aborted := s.aborted + lost, dropped := s.dropped + lost)
  }

  function Apply(s: State, step: Step): State
    requires Enabled(s, step)
  {
    match step
    case BeginReplace(th, dst, src) =>
      if dst == src then s else Advance(s, th, Continue(LockSource(dst, src)))
    case BeginAbort(th, c) => Advance(s, th, Continue(LockAbort(c)))
    case BeginPoll(th, c, w) => Advance(s, th, Continue(RegisterPoll(c, w)))
    case Act(th, ready) => ActStep(s, th, ready)
    case DropLast(c) => DropCell(s, c)
  }

  // ----- One operation, action by action -----

  function HoldsNext(next: Next): set<Cell> {
    if next.Continue? then Holds(next.op) else {}
  }

  function OwesNext(next: Next): set<Cell> {
    if next.Continue? then OwesWake(next.op) else {}
  }

  function CarriedNext(next: Next): Held {
    if next.Continue? then Carried(next.op) else Empty
  }

  /** How each kind of action changes what its thread holds, owes and carries. An
      operation takes one lock at a time, exchanges only under it, and wakes the
      cell it changed after releasing it. */
  lemma ActionDiscipline(op: Op, found: Held)
    ensures var effect, next := EffectOf(op), After(op, found);
            match effect
            case TakeLock(c) =>
              Holds(op) == {} && HoldsNext(next) == {c}
              && OwesWake(op) == OwesNext(next) == {} && CarriedNext(next) == Carried(op)
            case ReleaseLock(c) =>
              Holds(op) == {c} && HoldsNext(next) == {}
              && OwesNext(next) == OwesWake(op) && CarriedNext(next) == Carried(op)
            case Exchange(c, held) =>
              Holds(op) == HoldsNext(next) == {c}
              && OwesWake(op) == {} && OwesNext(next) == {c} && Carried(op) == held && CarriedNext(next) == found
            case WakeSlot(c) =>
              Holds(op) == HoldsNext(next) == {}
              && OwesWake(op) == {c} && OwesNext(next) == {} && CarriedNext(next) == Carried(op)
            case Discard(held) =>
              Holds(op) == HoldsNext(next) == {}
              && OwesNext(next) == OwesWake(op) && Carried(op) == held && CarriedNext(next) == Empty
            case RequestAbort(c) =>
              Holds(op) == HoldsNext(next) == {c}
              && OwesWake(op) == {} && OwesNext(next) == {c} && CarriedNext(next) == Carried(op)
            case Register(c, w) =>
              Holds(op) == HoldsNext(next) == {}
              && OwesWake(op) == OwesNext(next) == {} && CarriedNext(next) == Carried(op)
            case PollHandle(c, w) =>
              Holds(op) == HoldsNext(next) == {c}
              && OwesWake(op) == OwesNext(next) == {} && CarriedNext(next) == Carried(op)
    ensures After(op, found).Continue? ==> CellsOf(After(op, found).op) <= CellsOf(op)
    ensures forall c | c in Holds(op) + OwesWake(op) :: c in CellsOf(op)
    ensures EffectOf(op).Exchange? || EffectOf(op).RequestAbort? || EffectOf(op).PollHandle? ==>
      EffectOf(op).cell in CellsOf(op)
  {
  }

  // ----- Invariants -----

  /** The lock table says exactly which threads hold what. */
  ghost predicate LocksOk(s: State) {
    && (forall c | c in s.locks :: c in HeldBy(s, s.locks[c]))
    && (forall th, c | c in HeldBy(s, th) :: c in s.locks && s.locks[c] == th)
    && (forall th | th in s.ops :: CellsOf(s.ops[th]) <= s.cells.Keys)
  }

  datatype Place = InCell(cell: Cell) | InFlight(thread: Thread) | Dropped

  /** Handle `h` is at place `p`. */
  predicate IsAt(s: State, h: HandleId, p: Place) {
    match p
    case InCell(c) => c in s.cells && s.cells[c] == Full(h)
    case InFlight(th) => CarriedBy(s, th) == Full(h)
    case Dropped => h in s.dropped
  }

  /** Every handle of `all` is in exactly one place, and no other handle exists. */
  ghost predicate Conserved(s: State, all: set<HandleId>) {
    && (forall h | h in all :: exists p :: IsAt(s, h, p))
    && (forall h, p | IsAt(s, h, p) :: h in all)
    && (forall h, p, q | IsAt(s, h, p) && IsAt(s, h, q) :: p == q)
  }

  /** The records of cell `c` agree: an unfired registration is still in the slot; a
      Pending that is not stale came from the handle the cell holds; and a stale
      one whose waiter has not been woken is `owed` a wake. */
  ghost predicate WatchedIf(s: State, c: Cell, owed: bool) {
    && (c in s.lastRegistered && c !in s.fired ==> c in s.slots && s.slots[c] == s.lastRegistered[c])
    && (c in s.pending ==> c in s.lastRegistered && s.pending[c].waiter == s.lastRegistered[c])
    && (c in s.pending && c !in s.stale ==> c in s.cells && s.cells[c] == Full(s.pending[c].handle))
    && (c in s.pending && c in s.stale && c !in s.fired ==> owed)
  }

  ghost predicate Owed(s: State, c: Cell) {
    exists th :: c in OwedBy(s, th)
  }

  ghost predicate Watched(s: State, c: Cell) {
    WatchedIf(s, c, Owed(s, c))
  }

  // ----- Preservation -----

  lemma PerformKeepsOps(s: State, th: Thread, effect: Effect, ready: bool)
    ensures Perform(s, th, effect, ready).ops == s.ops
  {
  }

  lemma AdvanceThreads(s: State, th: Thread, next: Next, t: Thread)
    ensures var s' := Advance(s, th, next);
            if t != th then HeldBy(s', t) == HeldBy(s, t) && OwedBy(s', t) == OwedBy(s, t)
                            && CarriedBy(s', t) == CarriedBy(s, t)
            else HeldBy(s', t) == HoldsNext(next) && OwedBy(s', t) == OwesNext(next)
                 && CarriedBy(s', t) == CarriedNext(next)
  {
  }

  /** What a step of `th` does to the bookkeeping of thread `t`. */
  lemma ThreadsAfter(s: State, th: Thread, ready: bool, t: Thread)
    requires th in s.ops
    ensures var s', next := ActStep(s, th, ready), After(s.ops[th], Found(s, EffectOf(s.ops[th])));
            if t != th then HeldBy(s', t) == HeldBy(s, t) && OwedBy(s', t) == OwedBy(s, t)
                            && CarriedBy(s', t) == CarriedBy(s, t)
            else HeldBy(s', t) == HoldsNext(next) && OwedBy(s', t) == OwesNext(next)
                 && CarriedBy(s', t) == CarriedNext(next)
  {
    var effect := EffectOf(s.ops[th]);
    PerformKeepsOps(s, th, effect, ready);
    AdvanceThreads(Perform(s, th, effect, ready), th, After(s.ops[th], Found(s, effect)), t);
  }

  function LocksWith(s: State, th: Thread, effect: Effect): map<Cell, Thread> {
    match effect
    case TakeLock(c) => s.locks[c := th]
    case ReleaseLock(c) => s.locks - {c}
    case _ => s.locks
  }

  lemma PerformLocks(s: State, th: Thread, effect: Effect, ready: bool)
    ensures Perform(s, th, effect, ready).locks == LocksWith(s, th, effect)
  {
  }

  /** What a step of `th` does to the lock table. */
  lemma LocksAfter(s: State, th: Thread, ready: bool)
    requires th in s.ops
    ensures ActStep(s, th, ready).locks == LocksWith(s, th, EffectOf(s.ops[th]))
  {
    hide EffectOf, After, Perform, LocksWith;
    PerformLocks(s, th, EffectOf(s.ops[th]), ready);
  }

  lemma LocksAct(s: State, th: Thread, ready: bool)
    requires LocksOk(s) && Enabled(s, Act(th, ready))
    ensures LocksOk(ActStep(s, th, ready))
  {
    CellsAct(s, th, ready);
    hide EffectOf, After, Holds, OwesWake, Carried, CellsOf, Perform, Advance, ActStep;
    var s', op := ActStep(s, th, ready), s.ops[th];
    var effect := EffectOf(op);
    ActionDiscipline(op, Found(s, effect));
    ThreadsAfter(s, th, ready, th);
    LocksAfter(s, th, ready);
    assert HeldBy(s, th) == Holds(op);
    assert effect.ReleaseLock? ==> effect.cell in HeldBy(s, th);
    assert effect.TakeLock? ==> effect.cell !in s.locks;
    hide Enabled, Free;
    forall c | c in s'.locks
      ensures c in HeldBy(s', s'.locks[c])
    {
      ThreadsAfter(s, th, ready, s'.locks[c]);
    }
    forall t, c | c in HeldBy(s', t)
      ensures c in s'.locks && s'.locks[c] == t
    {
      ThreadsAfter(s, th, ready, t);
      if t != th {
        assert c in HeldBy(s, t) && s.locks[c] == t;
        assert effect.ReleaseLock? ==> effect.cell != c;
        assert effect.TakeLock? ==> effect.cell != c;
      }
    }
  }

  /** No operation refers to a cell that does not exist. */
  lemma CellsAct(s: State, th: Thread, ready: bool)
    requires LocksOk(s) && th in s.ops
    ensures var s' := ActStep(s, th, ready);
            && s'.cells.Keys == s.cells.Keys
            && forall t | t in s'.ops :: CellsOf(s'.ops[t]) <= s'.cells.Keys
  {
    var effect := EffectOf(s.ops[th]);
    ActionDiscipline(s.ops[th], Found(s, effect));
    hide EffectOf, After, Holds, OwesWake, Carried, CellsOf;
    PerformKeepsOps(s, th, effect, ready);
  }

  lemma LocksPreserved(s: State, step: Step)
    requires LocksOk(s) && Enabled(s, step)
    ensures LocksOk(Apply(s, step))
  {
    match step
    case Act(th, ready) => LocksAct(s, th, ready);
    case DropLast(c) => DropKeepsLocks(s, c);
    case _ => BeginKeepsLocks(s, step);
  }

  lemma DropKeepsLocks(s: State, c: Cell)
    requires LocksOk(s) && Enabled(s, DropLast(c))
    ensures LocksOk(DropCell(s, c)) && c !in s.locks
  {
    var s' := DropCell(s, c);
    forall t ensures HeldBy(s', t) == HeldBy(s, t) && c !in HeldBy(s, t) {
      if t in s.ops {
        ActionDiscipline(s.ops[t], Empty);
      }
    }
  }

  lemma BeginKeepsLocks(s: State, step: Step)
    requires LocksOk(s) && Enabled(s, step) && !step.Act? && !step.DropLast?
    ensures LocksOk(Apply(s, step))
  {
    var s' := Apply(s, step);
    forall t ensures HeldBy(s', t) == HeldBy(s, t) {
    }
  }

  // ----- Preservation of the watch -----

  /** Whether cell `c` must still be owed a wake after `effect`. */
  predicate OwedAfter(effect: Effect, c: Cell, owed: bool) {
    match effect
    case Exchange(c', _) => owed || c' == c
    case RequestAbort(c') => owed || c' == c
    case WakeSlot(c') => owed && c' != c
    case _ => owed
  }

  lemma PerformKeepsWatch(s: State, th: Thread, effect: Effect, ready: bool, c: Cell, owed: bool)
    requires WatchedIf(s, c, owed)
    requires effect.PollHandle? ==> effect.cell in s.cells
    ensures WatchedIf(Perform(s, th, effect, ready), c, OwedAfter(effect, c, owed))
  {
  }

  lemma WatchOnlyShared(s: State, th: Thread, next: Next, c: Cell, owed: bool)
    requires WatchedIf(s, c, owed)
    ensures WatchedIf(Advance(s, th, next), c, owed)
  {
  }

  lemma OwedActs(s: State, th: Thread, ready: bool, c: Cell)
    requires th in s.ops
    ensures OwedAfter(EffectOf(s.ops[th]), c, Owed(s, c)) ==> Owed(ActStep(s, th, ready), c)
  {
    var effect, s' := EffectOf(s.ops[th]), ActStep(s, th, ready);
    ActionDiscipline(s.ops[th], Found(s, effect));
    ThreadsAfter(s, th, ready, th);
    hide EffectOf, After, Holds, OwesWake, Carried, CellsOf, Perform, Advance, ActStep;
    if OwedAfter(effect, c, Owed(s, c)) {
      if (effect.Exchange? || effect.RequestAbort?) && effect.cell == c {
        assert c in OwedBy(s', th);
      } else {
        var t :| c in OwedBy(s, t);
        ThreadsAfter(s, th, ready, t);
        assert OwedBy(s, th) == OwesWake(s.ops[th]);
        assert c in OwedBy(s', t);
      }
    }
  }

  lemma WatchedAct(s: State, th: Thread, ready: bool, c: Cell)
    requires LocksOk(s) && Watched(s, c) && Enabled(s, Act(th, ready))
    ensures Watched(ActStep(s, th, ready), c)
  {
    var op := s.ops[th];
    var effect := EffectOf(op);
    ActionDiscipline(op, Found(s, effect));
    OwedActs(s, th, ready, c);
    hide EffectOf, After, Perform, Advance, OwedAfter, Owed, CellsOf;
    var owed := OwedAfter(effect, c, Owed(s, c));
    PerformKeepsWatch(s, th, effect, ready, c, Owed(s, c));
    WatchOnlyShared(Perform(s, th, effect, ready), th, After(op, Found(s, effect)), c, owed);
  }

  lemma WatchedPreserved(s: State, step: Step, c: Cell)
    requires LocksOk(s) && Watched(s, c) && Enabled(s, step)
    ensures Watched(Apply(s, step), c)
  {
    if step.Act? {
      WatchedAct(s, step.thread, step.ready, c);
    } else if step.DropLast? {
      assert forall t :: OwedBy(Apply(s, step), t) == OwedBy(s, t);
      assert Owed(Apply(s, step), c) <==> Owed(s, c);
    } else {
      BeginOwesNothing(s, step);
      var s' := Apply(s, step);
      if Owed(s, c) {
        var t :| c in OwedBy(s, t);
        assert c in OwedBy(s', t);
      }
    }
  }

  lemma BeginOwesNothing(s: State, step: Step)
    requires Enabled(s, step) && !step.Act? && !step.DropLast?
    ensures forall t :: OwedBy(Apply(s, step), t) == OwedBy(s, t)
    ensures forall t :: CarriedBy(Apply(s, step), t) == CarriedBy(s, t)
    ensures Apply(s, step) == s.(ops := Apply(s, step).ops)
  {
  }

  // ----- Preservation of the handles -----

  /** Whether `h` is at `p` after `th` performs `effect`. */
  predicate Moves(s: State, th: Thread, effect: Effect, h: HandleId, p: Place) {
    match effect
    case Exchange(c, _) =>
      IsAt(s, h, if p == InCell(c) then InFlight(th) else if p == InFlight(th) then InCell(c) else p)
    case Discard(_) =>
      p != InFlight(th) && (IsAt(s, h, p) || (p == Dropped && IsAt(s, h, InFlight(th))))
    case _ => IsAt(s, h, p)
  }

  lemma PerformCells(s: State, th: Thread, effect: Effect, ready: bool)
    ensures Perform(s, th, effect, ready).cells ==
            if effect.Exchange? then s.cells[effect.cell := effect.held] else s.cells
    ensures Perform(s, th, effect, ready).dropped ==
            if effect.Discard? && effect.held.Full? then s.dropped + {effect.held.handle} else s.dropped
  {
  }

  lemma CellsAfter(s: State, th: Thread, ready: bool)
    requires th in s.ops
    ensures var s', effect := ActStep(s, th, ready), EffectOf(s.ops[th]);
            && s'.cells == (if effect.Exchange? then s.cells[effect.cell := effect.held] else s.cells)
            && s'.dropped == s.dropped + (if effect.Discard? then HandleIn(effect.held) else {})
  {
    hide EffectOf, After, Perform;
    PerformCells(s, th, EffectOf(s.ops[th]), ready);
  }

  lemma PlacesAct(s: State, th: Thread, ready: bool, h: HandleId, p: Place)
    requires LocksOk(s) && Enabled(s, Act(th, ready))
    ensures IsAt(ActStep(s, th, ready), h, p) <==> Moves(s, th, EffectOf(s.ops[th]), h, p)
  {
    var op := s.ops[th];
    var effect := EffectOf(op);
    ActionDiscipline(op, Found(s, effect));
    CellsAfter(s, th, ready);
    ThreadsAfter(s, th, ready, th);
    hide EffectOf, After, Holds, OwesWake, Carried, CellsOf, Perform, Advance, ActStep;
    assert CarriedBy(s, th) == Carried(op);
    if p.InFlight? {
      ThreadsAfter(s, th, ready, p.thread);
    }
  }

  lemma MovesConserve(s: State, th: Thread, effect: Effect, all: set<HandleId>, h: HandleId)
    requires Conserved(s, all)
    ensures h in all ==> exists p :: Moves(s, th, effect, h, p)
    ensures forall p | Moves(s, th, effect, h, p) :: h in all
    ensures forall p, q | Moves(s, th, effect, h, p) && Moves(s, th, effect, h, q) :: p == q
  {
    hide IsAt;
    if h in all {
      var p :| IsAt(s, h, p);
      match effect
      case Exchange(c, _) =>
        var q := if p == InCell(c) then InFlight(th) else if p == InFlight(th) then InCell(c) else p;
        assert Moves(s, th, effect, h, q);
      case Discard(_) =>
        assert Moves(s, th, effect, h, if p == InFlight(th) then Dropped else p);
      case _ =>
        assert Moves(s, th, effect, h, p);
    }
  }

  lemma ConservedPreserved(s: State, step: Step, all: set<HandleId>)
    requires LocksOk(s) && Conserved(s, all) && Enabled(s, step)
    ensures Conserved(Apply(s, step), all)
  {
    var s' := Apply(s, step);
    if step.Act? {
      var th := step.thread;
      var effect := EffectOf(s.ops[th]);
      hide EffectOf, Moves, IsAt, ActStep;
      forall h, p
        ensures IsAt(s', h, p) <==> Moves(s, th, effect, h, p)
      {
        PlacesAct(s, th, step.ready, h, p);
      }
      forall h
        ensures h in all ==> exists p :: IsAt(s', h, p)
        ensures forall p | IsAt(s', h, p) :: h in all
        ensures forall p, q | IsAt(s', h, p) && IsAt(s', h, q) :: p == q
      {
        MovesConserve(s, th, effect, all, h);
        if h in all {
          var p :| Moves(s, th, effect, h, p);
          assert IsAt(s', h, p);
        }
      }
    } else if step.DropLast? {
      DropConserves(s, step.cell, all);
    } else {
      BeginOwesNothing(s, step);
      assert forall h, p :: IsAt(s', h, p) <==> IsAt(s, h, p);
    }
  }

  /** The drop of a cell moves its handle out of the cell and nothing else. */
  lemma DropMoves(s: State, c: Cell, h: HandleId, p: Place)
    requires c in s.cells
    ensures IsAt(DropCell(s, c), h, p) <==>
      p != InCell(c) && (IsAt(s, h, p) || (p == Dropped && IsAt(s, h, InCell(c))))
  {
  }

  lemma DropConserves(s: State, c: Cell, all: set<HandleId>)
    requires Conserved(s, all) && c in s.cells
    ensures Conserved(DropCell(s, c), all)
  {
    forall h, p
      ensures IsAt(DropCell(s, c), h, p) <==>
        p != InCell(c) && (IsAt(s, h, p) || (p == Dropped && IsAt(s, h, InCell(c))))
    {
      DropMoves(s, c, h, p);
    }
    hide IsAt, DropCell;
    forall h | h in all ensures exists p :: IsAt(DropCell(s, c), h, p) {
      var p :| IsAt(s, h, p);
      assert IsAt(DropCell(s, c), h, if p == InCell(c) then Dropped else p);
    }
  }

  // ----- Runs -----

  /** Cells as they are created: nothing under way, no handle in two cells. */
  ghost predicate Initial(s: State) {
    && s == State(s.cells, map[], map[], map[], {}, {}, map[], {}, map[], {})
    && forall c, c' | c in s.cells && c' in s.cells && s.cells[c].Full? && s.cells[c] == s.cells[c'] :: c == c'
  }

  function Handles(s: State): set<HandleId> {
    set c | c in s.cells && s.cells[c].Full? :: s.cells[c].handle
  }

  /** Some interleaving of enabled steps leads from `start` to `s`. */
  ghost predicate Reaches(start: State, steps: seq<Step>, s: State)
    decreases |steps|
  {
    if steps == [] then s == start
    else
      var last := |steps| - 1;
      exists before :: Reaches(start, steps[..last], before) && Enabled(before, steps[last])
                       && s == Apply(before, steps[last])
  }

  lemma InitialOk(s: State)
    requires Initial(s)
    ensures LocksOk(s) && Conserved(s, Handles(s)) && forall c :: Watched(s, c)
  {
    forall h | h in Handles(s)
      ensures exists p :: IsAt(s, h, p)
    {
      var c :| c in s.cells && s.cells[c] == Full(h);
      assert IsAt(s, h, InCell(c));
    }
  }

  lemma {:induction false} ReachableOk(start: State, steps: seq<Step>, s: State)
    requires Initial(start) && Reaches(start, steps, s)
    ensures LocksOk(s) && Conserved(s, Handles(start)) && forall c :: Watched(s, c)
    decreases |steps|
  {
    if steps == [] {
      InitialOk(start);
    } else {
      var last := |steps| - 1;
      var before :| Reaches(start, steps[..last], before) && Enabled(before, steps[last])
                    && s == Apply(before, steps[last]);
      ReachableOk(start, steps[..last], before);
      hide Apply, Enabled, LocksOk, Conserved, Watched;
      LocksPreserved(before, steps[last]);
      ConservedPreserved(before, steps[last], Handles(start));
      forall c ensures Watched(s, c) {
        WatchedPreserved(before, steps[last], c);
      }
    }
  }

  // ----- Main results -----

  /** A waiter that saw Pending is never stranded by a `replace` or an `abort`: once
      the cell was changed under it, its waker has fired, or it is still in the slot
      and a thread is on its way to fire it. Otherwise the cell still holds the very
      handle the waiter is waiting for. */
  lemma WaiterNeverStranded(start: State, steps: seq<Step>, s: State, c: Cell)
    requires Initial(start) && Reaches(start, steps, s) && c in s.pending
    ensures var waiter := s.pending[c].waiter;
            || c in s.fired
            || (c in s.slots && s.slots[c] == waiter && exists th :: c in OwedBy(s, th))
            || (c in s.slots && s.slots[c] == waiter && c !in s.stale
                && c in s.cells && s.cells[c] == Full(s.pending[c].handle))
  {
    ReachableOk(start, steps, s);
    assert Watched(s, c);
  }

  /** However many threads replace handles at once, in whatever directions, no handle
      is lost, duplicated or made up: each is in one cell, in one thread's hands, or
      dropped. */
  lemma HandlesConserved(start: State, steps: seq<Step>, s: State, h: HandleId)
    requires Initial(start) && Reaches(start, steps, s)
    ensures h in Handles(start) <==> exists p :: IsAt(s, h, p)
    ensures forall p, q | IsAt(s, h, p) && IsAt(s, h, q) :: p == q
  {
    ReachableOk(start, steps, s);
  }

  /** No thread ever waits for a lock while holding one, and two threads never hold
      the same one; so as long as any operation is under way, some thread can act. */
  lemma NoDeadlock(start: State, steps: seq<Step>, s: State)
    requires Initial(start) && Reaches(start, steps, s)
    ensures forall th | th in s.ops && EffectOf(s.ops[th]).TakeLock? :: HeldBy(s, th) == {}
    ensures forall a, b | a != b :: HeldBy(s, a) !! HeldBy(s, b)
    ensures s.ops != map[] ==> exists th :: Enabled(s, Act(th, true))
  {
    ReachableOk(start, steps, s);
    hide Reaches;
    forall th | th in s.ops && EffectOf(s.ops[th]).TakeLock?
      ensures HeldBy(s, th) == {}
    {
      ActionDiscipline(s.ops[th], Empty);
    }
    forall a, b | a != b
      ensures HeldBy(s, a) !! HeldBy(s, b)
    {
      forall c | c in HeldBy(s, a)
        ensures c !in HeldBy(s, b)
      {
        assert s.locks[c] == a;
      }
    }
    if s.ops != map[] {
      var th :| th in s.ops;
      SomeoneMoves(s, th);
    }
  }

  /** A thread that cannot act waits for one that can. */
  lemma SomeoneMoves(s: State, th: Thread)
    requires LocksOk(s) && th in s.ops
    ensures exists t :: Enabled(s, Act(t, true))
  {
    var effect := EffectOf(s.ops[th]);
    if Free(s, effect) {
      assert Enabled(s, Act(th, true));
    } else {
      var holder := s.locks[effect.cell];
      assert effect.cell in HeldBy(s, holder);
      ActionDiscipline(s.ops[holder], Empty);
      assert Enabled(s, Act(holder, true));
    }
  }

  /** The number of actions an operation still has to perform. */
  function Remaining(op: Op): nat {
    match op
    case LockSource(_, _) => 9
    case TakeSource(_, _) => 8
    case UnlockSource(_, _, _) => 7
    case WakeSource(_, _, _) => 6
    case LockDest(_, _) => 5
    case SwapDest(_, _) => 4
    case UnlockDest(_, _) => 3
    case DropPrevious(_, _) => 2
    case WakeDest(_) => 1
    case LockAbort(_) => 4
    case AbortInner(_) => 3
    case UnlockAbort(_) => 2
    case WakeAbort(_) => 1
    case RegisterPoll(_, _) => 4
    case LockPoll(_, _) => 3
    case PollInner(_, _) => 2
    case UnlockPoll(_) => 1
  }

  lemma OneActionLess(op: Op, found: Held)
    ensures After(op, found).Finished? <==> Remaining(op) == 1
    ensures After(op, found).Continue? ==> Remaining(After(op, found).op) == Remaining(op) - 1
  {
  }

  /** The actions that all operations under way have before them. */
  ghost function Work(ops: map<Thread, Op>): nat {
    if ops == map[] then 0
    else
      var th :| th in ops;
      Remaining(ops[th]) + Work(ops - {th})
  }

  lemma {:induction false} WorkWithout(ops: map<Thread, Op>, th: Thread)
    requires th in ops
    ensures Work(ops) == Remaining(ops[th]) + Work(ops - {th})
    decreases |ops|
  {
    var t :| t in ops && Work(ops) == Remaining(ops[t]) + Work(ops - {t});
    if t != th {
      WorkWithout(ops - {t}, th);
      WorkWithout(ops - {th}, t);
      assert ops - {t} - {th} == ops - {th} - {t};
    }
  }

  lemma ActLowersWork(s: State, th: Thread, ready: bool)
    requires th in s.ops
    ensures Work(ActStep(s, th, ready).ops) + 1 == Work(s.ops)
  {
    var op, effect, s' := s.ops[th], EffectOf(s.ops[th]), ActStep(s, th, ready);
    var next := After(op, Found(s, effect));
    OneActionLess(op, Found(s, effect));
    PerformKeepsOps(s, th, effect, ready);
    WorkWithout(s.ops, th);
    hide EffectOf, After, Perform, Remaining;
    match next
    case Finished =>
      assert s'.ops == s.ops - {th};
    case Continue(op') =>
      assert s'.ops == s.ops[th := op'];
      WorkWithout(s'.ops, th);
      assert s'.ops - {th} == s.ops - {th};
  }

  /** However their actions interleave, the operations under way all end, after exactly
      as many actions as they have before them, and until then one of them can act. */
  lemma {:induction false} OperationsEnd(s: State, steps: seq<Step>, t: State)
    requires LocksOk(s) && Reaches(s, steps, t)
    requires forall i | 0 <= i < |steps| :: steps[i].Act?
    ensures LocksOk(t) && |steps| + Work(t.ops) == Work(s.ops)
    ensures |steps| == Work(s.ops) <==> t.ops == map[]
    ensures |steps| < Work(s.ops) ==> exists th :: Enabled(t, Act(th, true))
    decreases |steps|
  {
    if steps != [] {
      var last := |steps| - 1;
      var before :| Reaches(s, steps[..last], before) && Enabled(before, steps[last])
                    && t == Apply(before, steps[last]);
      OperationsEnd(s, steps[..last], before);
      hide Reaches, Apply, Enabled, LocksOk, Work;
      OneActionOn(before, steps[last]);
    }
    hide Reaches, Apply, Enabled, LocksOk, Work;
    CanGoOn(t);
  }

  lemma OneActionOn(s: State, step: Step)
    requires LocksOk(s) && Enabled(s, step) && step.Act?
    ensures LocksOk(Apply(s, step)) && Work(Apply(s, step).ops) + 1 == Work(s.ops)
  {
    LocksPreserved(s, step);
    ActLowersWork(s, step.thread, step.ready);
  }

  lemma CanGoOn(s: State)
    requires LocksOk(s)
    ensures Work(s.ops) == 0 <==> s.ops == map[]
    ensures s.ops != map[] ==> exists th :: Enabled(s, Act(th, true))
  {
    if s.ops != map[] {
      var th :| th in s.ops;
      WorkWithout(s.ops, th);
      SomeoneMoves(s, th);
    }
  }

  /** The state after the next `n` actions of thread `th`, with no other thread in
      between. */
  function RunAlone(s: State, th: Thread, n: nat): State
    decreases n
  {
    if n == 0 || th !in s.ops then s else RunAlone(ActStep(s, th, true), th, n - 1)
  }

  ghost predicate CanRunAlone(s: State, th: Thread, n: nat)
    decreases n
  {
    n > 0 ==> Enabled(s, Act(th, true)) && CanRunAlone(ActStep(s, th, true), th, n - 1)
  }

  lemma PerformSlots(s: State, th: Thread, effect: Effect, ready: bool)
    requires !effect.Register?
    ensures var s' := Perform(s, th, effect, ready);
            if effect.WakeSlot?
            then s'.slots == s.slots - {effect.cell} && s'.fired == s.fired + ({effect.cell} * s.slots.Keys)
            else s'.slots == s.slots && s'.fired == s.fired
    ensures !effect.RequestAbort? ==> Perform(s, th, effect, ready).aborted == s.aborted
  {
  }

  lemma SlotsAfter(s: State, th: Thread, ready: bool)
    requires th in s.ops && !EffectOf(s.ops[th]).Register? && !EffectOf(s.ops[th]).RequestAbort?
    ensures var s', effect := ActStep(s, th, ready), EffectOf(s.ops[th]);
            && s'.slots == (if effect.WakeSlot? then s.slots - {effect.cell} else s.slots)
            && s'.fired == (if effect.WakeSlot? then s.fired + {effect.cell} * s.slots.Keys else s.fired)
            && s'.aborted == s.aborted
  {
    hide EffectOf, After, Perform;
    PerformSlots(s, th, EffectOf(s.ops[th]), ready);
  }

  lemma OpsAfter(s: State, th: Thread, op: Op, ready: bool)
    requires s.ops == map[th := op]
    ensures var next := After(op, Found(s, EffectOf(op)));
            ActStep(s, th, ready).ops == if next.Finished? then map[] else map[th := next.op]
  {
    hide EffectOf, After, Perform;
    PerformKeepsOps(s, th, EffectOf(op), ready);
    AdvanceAlone(Perform(s, th, EffectOf(op), ready), th, op, After(op, Found(s, EffectOf(op))));
  }

  lemma AdvanceAlone(s: State, th: Thread, op: Op, next: Next)
    requires s.ops == map[th := op]
    ensures Advance(s, th, next).ops == if next.Finished? then map[] else map[th := next.op]
  {
  }

  /** One action of a thread that is alone. */
  lemma ActAlone(s: State, th: Thread, op: Op)
    requires s.ops == map[th := op] && Free(s, EffectOf(op)) && CellsOf(op) <= s.cells.Keys
    requires !EffectOf(op).Register? && !EffectOf(op).RequestAbort?
    ensures Enabled(s, Act(th, true))
    ensures var s', effect, next := ActStep(s, th, true), EffectOf(op), After(op, Found(s, EffectOf(op)));
            && s'.ops == (if next.Finished? then map[] else map[th := next.op])
            && s'.locks == LocksWith(s, th, effect)
            && s'.cells == (if effect.Exchange? then s.cells[effect.cell := effect.held] else s.cells)
            && s'.dropped == s.dropped + (if effect.Discard? then HandleIn(effect.held) else {})
            && s'.slots == (if effect.WakeSlot? then s.slots - {effect.cell} else s.slots)
            && s'.fired == (if effect.WakeSlot? then s.fired + {effect.cell} * s.slots.Keys else s.fired)
            && s'.aborted == s.aborted
  {
    hide EffectOf, After, CellsOf, Perform, Advance, ActStep, LocksWith;
    OpsAfter(s, th, op, true);
    SlotsAfter(s, th, true);
    CellsAfter(s, th, true);
    LocksAfter(s, th, true);
  }

  /** The actions of `replace` up to the wake of the source's waiter. */
  lemma TakeAlone(s: State, th: Thread, dst: Cell, src: Cell)
    requires s.ops == map[th := LockSource(dst, src)] && s.locks == map[]
    requires dst in s.cells && src in s.cells
    ensures CanRunAlone(s, th, 4)
    ensures var s' := RunAlone(s, th, 4);
            && s'.ops == map[th := LockDest(dst, s.cells[src])] && s'.locks == map[]
            && s'.cells == s.cells[src := Empty] && s'.dropped == s.dropped && s'.aborted == s.aborted
            && s'.slots == s.slots - {src} && s'.fired == s.fired + {src} * s.slots.Keys
  {
    hide ActStep, Enabled;
    var moved := s.cells[src];
    ActAlone(s, th, LockSource(dst, src));
    var s1 := ActStep(s, th, true);
    ActAlone(s1, th, TakeSource(dst, src));
    var s2 := ActStep(s1, th, true);
    ActAlone(s2, th, UnlockSource(dst, src, moved));
    var s3 := ActStep(s2, th, true);
    ActAlone(s3, th, WakeSource(dst, src, moved));
    var s4 := ActStep(s3, th, true);
    assert CanRunAlone(s2, th, 2) && RunAlone(s2, th, 2) == s4;
  }

  /** The exchange with the destination. */
  lemma SwapAlone(s: State, th: Thread, dst: Cell, moved: Held)
    requires s.ops == map[th := LockDest(dst, moved)] && s.locks == map[] && dst in s.cells
    ensures CanRunAlone(s, th, 3)
    ensures var s' := RunAlone(s, th, 3);
            && s'.ops == map[th := DropPrevious(dst, s.cells[dst])] && s'.locks == map[]
            && s'.cells == s.cells[dst := moved] && s'.dropped == s.dropped && s'.aborted == s.aborted
            && s'.slots == s.slots && s'.fired == s.fired
  {
    hide ActStep, Enabled;
    ActAlone(s, th, LockDest(dst, moved));
    var s1 := ActStep(s, th, true);
    ActAlone(s1, th, SwapDest(dst, moved));
    var s2 := ActStep(s1, th, true);
    ActAlone(s2, th, UnlockDest(dst, s.cells[dst]));
    var s3 := ActStep(s2, th, true);
    assert CanRunAlone(s2, th, 1) && RunAlone(s2, th, 1) == s3;
  }

  /** The drop of the destination's old handle, and the wake of its waiter. */
  lemma DiscardAlone(s: State, th: Thread, dst: Cell, previous: Held)
    requires s.ops == map[th := DropPrevious(dst, previous)] && s.locks == map[] && dst in s.cells
    ensures CanRunAlone(s, th, 2)
    ensures var s' := RunAlone(s, th, 2);
            && s'.ops == map[] && s'.locks == map[]
            && s'.cells == s.cells && s'.aborted == s.aborted
            && s'.dropped == (if previous.Full? then s.dropped + {previous.handle} else s.dropped)
            && s'.slots == s.slots - {dst} && s'.fired == s.fired + {dst} * s.slots.Keys
  {
    hide ActStep, Enabled;
    ActAlone(s, th, DropPrevious(dst, previous));
    var s1 := ActStep(s, th, true);
    ActAlone(s1, th, WakeDest(dst));
  }

  lemma {:induction false} RunOn(s: State, th: Thread, m: nat, n: nat)
    requires CanRunAlone(s, th, m) && CanRunAlone(RunAlone(s, th, m), th, n)
    ensures CanRunAlone(s, th, m + n) && RunAlone(s, th, m + n) == RunAlone(RunAlone(s, th, m), th, n)
    decreases m
  {
    hide ActStep;
    if m > 0 {
      RunOn(ActStep(s, th, true), th, m - 1, n);
    }
  }

  lemma BeginAlone(s: State, th: Thread, dst: Cell, src: Cell)
    requires s.ops == map[] && dst in s.cells && src in s.cells
    ensures Apply(s, BeginReplace(th, dst, src)) ==
            if dst == src then s else s.(ops := map[th := LockSource(dst, src)])
  {
    assert s.ops[th := LockSource(dst, src)] == map[th := LockSource(dst, src)];
  }

  /** What `replace` amounts to when nothing interferes: the destination gets the
      source's handle, the source becomes empty, the destination's old handle is
      dropped without being aborted, and the waiters of both cells are woken. Replacing a
      cell by itself changes nothing. */
  lemma ReplaceAlone(s: State, th: Thread, dst: Cell, src: Cell)
    requires s.ops == map[] && s.locks == map[] && dst in s.cells && src in s.cells
    ensures dst == src ==> Apply(s, BeginReplace(th, dst, src)) == s
    ensures dst != src ==>
            var begun := Apply(s, BeginReplace(th, dst, src));
            var s', previous := RunAlone(begun, th, 9), s.cells[dst];
            && CanRunAlone(begun, th, 9)
            && s'.ops == map[] && s'.locks == map[]
            && s'.cells == s.cells[dst := s.cells[src]][src := Empty]
            && s'.dropped == (if previous.Full? then s.dropped + {previous.handle} else s.dropped)
            && s'.aborted == s.aborted
            && s'.slots == s.slots - {src, dst}
            && s'.fired == s.fired + {src, dst} * s.slots.Keys
  {
    hide RunAlone, CanRunAlone, Apply;
    BeginAlone(s, th, dst, src);
    if dst == src {
      return;
    }
    var begun := Apply(s, BeginReplace(th, dst, src));
    TakeAlone(begun, th, dst, src);
    var taken := RunAlone(begun, th, 4);
    assert taken.cells[dst] == s.cells[dst];
    SwapAlone(taken, th, dst, s.cells[src]);
    var swapped := RunAlone(taken, th, 3);
    DiscardAlone(swapped, th, dst, s.cells[dst]);
    RunOn(begun, th, 4, 3);
    RunOn(begun, th, 7, 2);
    BothWoken(s.slots, s.fired, src, dst);
    assert s.cells[src := Empty][dst := s.cells[src]] == s.cells[dst := s.cells[src]][src := Empty];
  }

  lemma BothWoken(slots: map<Cell, Waiter>, fired: set<Cell>, src: Cell, dst: Cell)
    requires src != dst
    ensures slots - {src} - {dst} == slots - {src, dst}
    ensures fired + {src} * slots.Keys + {dst} * (slots - {src}).Keys == fired + {src, dst} * slots.Keys
  {
  }

  // ----- Dropping the last clone -----

  /** A task is asked to abort only where its handle is: by an `abort` of the cell that
      holds it, or with the last clone of that cell. */
  lemma AbortsOnlyHeld(s: State, step: Step, h: HandleId)
    requires LocksOk(s) && Enabled(s, step)
    requires h in Apply(s, step).aborted && h !in s.aborted
    ensures exists c | c in s.cells && s.cells[c] == Full(h) ::
              step == DropLast(c) || (step.Act? && s.ops[step.thread] == AbortInner(c))
  {
    match step
    case Act(th, ready) =>
      var op, effect := s.ops[th], EffectOf(s.ops[th]);
      hide After;
      PerformAborts(s, th, effect, ready);
      assert effect.RequestAbort?;
      assert op == AbortInner(effect.cell);
    case DropLast(c) =>
      assert s.cells[c] == Full(h);
    case _ =>
      assert false;
  }

  lemma PerformAborts(s: State, th: Thread, effect: Effect, ready: bool)
    ensures Perform(s, th, effect, ready).aborted == s.aborted +
            if effect.RequestAbort? && effect.cell in s.cells then HandleIn(s.cells[effect.cell]) else {}
  {
  }

  /** While a `replace` has a handle in its hands, nothing aborts its task: neither an
      `abort` of the cell that it came from, nor the drop of that cell's last clone. */
  lemma MovedIsSafe(start: State, steps: seq<Step>, s: State, h: HandleId, th: Thread, step: Step)
    requires Initial(start) && Reaches(start, steps, s) && Enabled(s, step)
    requires IsAt(s, h, InFlight(th))
    ensures h in Apply(s, step).aborted ==> h in s.aborted
  {
    ReachableOk(start, steps, s);
    hide Reaches, Apply, Watched;
    forall c | c in s.cells ensures s.cells[c] != Full(h) {
      assert IsAt(s, h, InCell(c)) ==> InCell(c) == InFlight(th);
    }
    if h in Apply(s, step).aborted && h !in s.aborted {
      AbortsOnlyHeld(s, step, h);
    }
  }

  /** The last clone of a cell takes along exactly the handle that the cell holds, which
      it aborts; no thread holds or waits for its lock, and everything elsewhere stays. */
  lemma LastCloneDrops(start: State, steps: seq<Step>, s: State, c: Cell)
    requires Initial(start) && Reaches(start, steps, s) && Enabled(s, DropLast(c))
    ensures c !in s.locks && !Owed(s, c)
    ensures var s' := Apply(s, DropLast(c));
            && (forall h | h in s'.aborted :: h in s.aborted || s.cells[c] == Full(h))
            && (s.cells[c].Full? ==> s.cells[c].handle in s'.aborted && IsAt(s', s.cells[c].handle, Dropped))
            && (forall h, p | IsAt(s, h, p) && p != InCell(c) :: IsAt(s', h, p) && s.cells[c] != Full(h))
  {
    ReachableOk(start, steps, s);
    DropKeepsLocks(s, c);
    hide Reaches, Watched;
    forall t ensures c !in OwedBy(s, t) {
      if t in s.ops {
        ActionDiscipline(s.ops[t], Empty);
      }
    }
    forall h, p | IsAt(s, h, p) && p != InCell(c)
      ensures IsAt(Apply(s, DropLast(c)), h, p) && s.cells[c] != Full(h)
    {
      assert IsAt(s, h, InCell(c)) ==> InCell(c) == p;
      DropMoves(s, c, h, p);
    }
  }

  lemma DropEmpty(s: State, c: Cell)
    requires s.ops == map[] && c in s.cells && s.cells[c] == Empty
    ensures Enabled(s, DropLast(c))
    ensures Apply(s, DropLast(c)).aborted == s.aborted && Apply(s, DropLast(c)).cells == s.cells - {c}
  {
  }

  /** `replace` with the last clone of its source: the moved task keeps running in the
      destination, and nothing at all is aborted. */
  lemma ReplaceByLastClone(s: State, th: Thread, dst: Cell, src: Cell)
    requires s.ops == map[] && s.locks == map[] && dst in s.cells && src in s.cells && dst != src
    ensures var moved := RunAlone(Apply(s, BeginReplace(th, dst, src)), th, 9);
            && Enabled(moved, DropLast(src))
            && var s' := Apply(moved, DropLast(src));
               s'.aborted == s.aborted && s'.cells == (s.cells - {src})[dst := s.cells[src]]
  {
    hide RunAlone, CanRunAlone, Apply;
    ReplaceAlone(s, th, dst, src);
    var begun := Apply(s, BeginReplace(th, dst, src));
    var moved := RunAlone(begun, th, 9);
    DropEmpty(moved, src);
    assert moved.cells - {src} == (s.cells - {src})[dst := s.cells[src]];
  }
}
