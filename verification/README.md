# Verification of async-rt's schedulers, handles and file machinery

async-rt is mostly forwarding code around several runtimes, but it contains
hand-written schedulers, wake-up protocols and state machines of its own. This
project models those in Dafny and proves that they keep their promises over all
inputs, all runs and all interleavings.

Each part comes in the form its source has. Code that changes things step by
step (the executor's loops, the file object, the scope, path splitting, the
directory copy) is a class or a method with loops, proved against a
specification; protocols between threads are step machines whose actions
interleave freely, with theorems about every reachable state.

| module | what it models |
|---|---|
| `LiteProtocol` | the lite executor's park and wake protocol: one driver, any spawners and wakers |
| `LiteRuntime`, `TaskForest`, `Vectors` | the lite executor's loop on tasks that are finite scripts of polls and spawns |
| `LiteEntry` | entry lock, executor context and `driving` flag on any number of threads |
| `TaskContext` | the thread-local executor and its guards, against lexical scoping |
| `Scoped`, `ScopeProtocol` | `scope` and `drive_scope`: as a program, and against concurrent pushes |
| `ExecutorScope` | `executor_scope`, dropped at any await point |
| `JoinCell`, `JoinCellUse` | `AbortableJoinHandle`: `replace`, `abort`, `poll` and the drop of the last clone, on any cells from any threads |
| `CompioHandle`, `CompioWake` | the cancellable join handle, and its waker slots together with that of the shared cell |
| `FileIoSpec`, `FileIo` | the in-flight file operation machine over a file with a cursor |
| `FileIoLaws`, `FileIoDevice` | what holds over runs of that machine: the stream and the cursor, and the bytes of the file |
| `Common` | option, result and poll types and bytes |
| `IoLoops` | `read_exact`, `read_to_end`, `read_to_string`, `write_all` |
| `OpfsPath`, `OpfsTree`, `OpfsFiles` | path resolution and directory rename in the origin private file system |

Library pieces appear by contract only: an atomic waker is an optional slot with
an atomic register and an atomic take-and-wake, parking uses a one-bit token,
`FuturesUnordered` is a set of children with woken flags, and the browser's file
system is a tree whose calls may fail. Times, devices, foreign threads and the
order in which children are polled are parameters or free choices.

## Where the code falls short of what it is for

Three properties one would expect do not hold of the code. Each is kept as the
code has it, shown by a concrete run, and given its exact condition.

- **A flush can lose bytes of the read stream.** `poll_flush` over a read in
  flight awaits the read and discards its bytes, while the cursor moves past
  them (src/fs/io.rs:622-637, src/fs/io.rs:693-717). The stream is unbroken if
  and only if no flush of the run was called with a read in flight and ended it
  with bytes (`FileIoLaws.StreamUnbrokenIff`). A caller who never flushes over a
  read in flight is safe (`FileIoLaws.CarefulStreamUnbroken`), and one who does,
  with something left to read, is not: the read may end in that flush
  (`FileIoLaws.FlushOverReadCanBreak`). `FileIoLaws.FlushBreaksStream` is a run
  that loses a two-byte file.
- **The stream position is not the reader's position.** Seeking by
  `Current(0)` reports the cursor of the file. Over any run of reads and flushes
  that is where the reader stands if and only if no call, and not the seek
  itself, dropped a read in flight, and no read was retried with a smaller buffer
  whose excess the reads after it have not asked for yet
  (`FileIoLaws.StreamPositionIff`). `FileIoLaws.SmallReadMisplaces` is a run
  that has one byte and is told two.
- **A directory can be renamed onto its own ancestor and lose entries.** The
  guard of `rename` rejects a move into itself but not a move upwards
  (src/fs/wasm.rs:332-341). A rename that reports success has moved the
  directory if and only if the source held no entry at the path that leads from
  the target to the source (`OpfsFiles.FileSystem.RenameNames`).
  `OpfsFiles.RenameToParent` is a run: `/a/a`, which holds a directory `a`, is
  renamed to `/a`, and success is reported.

The compare-and-swap of the lite runtime never fails when every entry takes the
entry lock (`LiteEntry.DrivingNeverFails`), and a single entry that goes past it
is enough to make another one panic (`LiteEntry.UnlockedEntryCollides`).

## Model

| member | source | states |
|---|---|---|
| `LiteProtocol.NoLostWakeup` | src/rt/lite.rs:205-233 | in every reachable interleaving, a driver that sleeps without an unpark token has polled every active task and the main future with its own waker and none was woken since; the queue is empty, or another thread is between its push and its wake and the sleeper is still registered |
| `LiteProtocol.SleepHappens` | src/rt/lite.rs:205-233 | such a sleep is reachable, with a pending active task, and with a task in the queue whose spawner has yet to wake |
| `LiteProtocol.WorkEndsSleep` | src/rt/lite.rs:21-31 | each event that brings work (a push's wake, the waker of an active task or of the main future) makes the sleeping driver able to return from parking |
| `LiteProtocol.WokenDriverTakesQueue` | src/rt/lite.rs:205-207 | however other threads' actions come in between, a parked driver that goes on has everything that was queued behind its active list after three actions of its own, and from its registration on it stays registered or has a token |
| `LiteProtocol.BlockOnReturns` | src/rt/lite.rs:209-211 | once the main future is ready or a poll has panicked, the driver, over any interleaving, neither parks nor polls again, and after two actions of its own it drives no more and its tasks are in the queue |
| `LiteProtocol.ReturnsOnlyByResult` | src/rt/lite.rs:209-211 | and it leaves `block_on` only after such a poll |
| `LiteProtocol.NoSleepAfterProgress` | src/rt/lite.rs:213-226 | after a pass in which a task completed the driver goes through its loop again, or leaves, before it can sleep |
| `LiteProtocol.DriverGoesOn` | src/rt/lite.rs:204-233 | a driver that neither sleeps nor is in the middle of a push can always take a step |
| `LiteProtocol.TasksConserved` | src/rt/lite.rs:35-50 | every task spawned, also by the drop of the main future, is in exactly one of queue, active list and completed set; whenever nobody drives it is in the queue or completed, after returns, panics and refused drivers alike |
| `LiteProtocol.OneDriver` | src/rt/lite.rs:188-194 | at most one thread drives, and an entry that loses the compare-and-swap changes nothing |
| `LiteProtocol.ReachableInv` | src/rt/lite.rs:187-236 | the protocol's invariant holds after any run of the step machine |
| `Vectors.SwapRemove` | src/rt/lite.rs:215-216 | removing by swapping keeps the elements before the index and, as a multiset, those after it less the removed one |
| `TaskForest.RoundPermutes` | src/rt/lite.rs:213-222 | what one round of polls leaves and spawns depends only on which tasks are active, not on their order |
| `TaskForest.RoundKeepsIds` | src/rt/lite.rs:213-222 | a round neither loses nor duplicates a task: the ids before are those of the tasks left or spawned and of those that finished |
| `TaskForest.RoundLowersHeight` | src/rt/lite.rs:213-222 | a round lowers the number of rounds that a forest of spawning tasks still needs by exactly one |
| `LiteRuntime.LiteRuntime.TakeQueuedTasks` | src/rt/lite.rs:122-130 | empties the queue behind the given list, and answers whether there was anything to take |
| `LiteRuntime.LiteRuntime.PollAt` | src/rt/lite.rs:214-221 | polls exactly the task at the index; a finished one leaves and its place is taken by one not polled yet, a pending one is stepped over |
| `LiteRuntime.LiteRuntime.PollPass` | src/rt/lite.rs:211-222 | one pass polls every active task exactly once despite the swaps; the list then holds exactly what is left of the unfinished ones, the queue has grown by exactly what they spawned in polling order, and progress is reported exactly when one finished |
| `TaskForest.RoundParts` | src/rt/lite.rs:213-222 | a round is what is left of the polled tasks together with what they spawn |
| `TaskForest.FinishingCount` | src/rt/lite.rs:213-222 | every polled task either finishes or is left |
| `LiteRuntime.LiteRuntime.Iterate` | src/rt/lite.rs:204-233 | one turn of the driver's loop is one round of polls; it sleeps only when no task is finished or spawns and with exactly the unfinished tasks in its list, and does sleep then if nothing arrives |
| `LiteRuntime.LiteRuntime.BlockOn` | src/rt/lite.rs:187-236 | a second driver is refused and changes nothing; otherwise the run returns or panics as the main future does and the flag is cleared; every id that was queued, that a turn of the main future or its drop spawned or that other threads pushed during its polls, with all they spawn, is queued again or completed, once; the tasks queued are those that the rounds of polls leave, and the number of sleeps is bounded both ways |
| `LiteRuntime.ArrivesInTurn` | src/rt/lite.rs:204-233 | what counts from a turn on: the spawns of that turn of the main future, what others push meanwhile, and after the last turn what the future's drop spawns |
| `LiteRuntime.AllArrivals` | src/rt/lite.rs:187-236 | all turns together bring in exactly those ids |
| `LiteRuntime.RoundsPermute` | src/rt/lite.rs:187-236 | the tasks left after a whole run do not depend on the order of the active list |
| `LiteRuntime.QueueEmptyIffOnTime` | src/rt/lite.rs:302-311 | the run leaves the queue empty if and only if every task, with everything it spawns, arrives early enough for the main future's remaining polls |
| `LiteEntry.DrivingNeverFails` | src/task.rs:55-64 | in runs where every entry takes the entry lock, from any threads, no compare-and-swap on `driving` fails |
| `LiteEntry.CollisionNeedsUnlocked` | src/rt/lite.rs:188-194 | a compare-and-swap that fails meets another driving thread, and one of the two does not hold the entry lock |
| `LiteEntry.UnlockedEntryCollides` | src/global.rs:96-103 | a concrete run in which an entry past the lock makes an entry with the lock fail |
| `LiteEntry.OneDriver` | src/rt/lite.rs:188-195 | whether or not entries lock, at most one thread drives, and then the flag is set |
| `LiteEntry.ContextRestored` | src/task.rs:24-42 | on every thread the executor context outside `block_on` is the one it had at the start; a driving thread sees its task executor, which is Lite when it holds the entry lock, and otherwise what it saw before |
| `LiteEntry.EntryRuns` | src/rt/lite.rs:188-195 | an undisturbed entry does come to drive, with its executor in place and the lock in its hands if it takes it, and leaves everything as it was |
| `LiteEntry.ReachableInv` | src/task.rs:50-64 | lock, flag and context invariants over any run of entries and exits |
| `TaskContext.Thread.Run` | src/task.rs:22-48 | for any nesting of contexts, panics, catches and `block_on` calls, code sees and spawns exactly what it would if the innermost executor were passed down, and the cell and the entry lock are as before |
| `TaskContext.SeesInnermost` | src/task.rs:22-48 | at any place in any script, polled or dropped, code sees the executor of the innermost enclosing construct that sets one, or else the thread's, or the default; and a spawned task gets the chosen executor or the one seen there |
| `TaskContext.Thread.BlockOn` | src/global.rs:96-103 | the future sees the task executor, or the enclosing one when none is configured, while polled and while dropped; the context and the lock are restored on return and on panic |
| `TaskContext.Thread.WithExecutor` | src/task.rs:45-48 | the guard restores the previous executor whether the body returns or panics |
| `TaskContext.Thread.PollAndDrop` | src/task.rs:66-99 | a wrapped future is polled and dropped under its own executor, also when the poll panics |
| `TaskContext.Thread.PollSpawned` | src/global.rs:71-79 | a spawned task sees the executor it was spawned with or under, on whatever thread it is polled |
| `TaskContext.SeesTheSameAfter` | src/task.rs:29-33 | whatever completes first, what follows it sees the same executor as if nothing had run |
| `Scoped.RunScope` | src/scoped.rs:495-543 | `scope` ends as its closure does, with the closure's value; on return every task ever pushed at any depth has completed exactly once, and the drain took exactly the remaining polls, whatever woke the scope and with any finite number of spurious polls; on every ending there were at least as many polls as pending turns of the closure that pushed something, and, unless the set yielded early, whatever one poll each is enough for among what those turns pushed has completed; after a panic nothing of the last turn has, and no task twice |
| `Scoped.ScopeRun.DriveTurn` | src/scoped.rs:513-525 | in a turn that leaves the closure pending, what it pushes is driven before it is polled again |
| `Scoped.ScopeRun.Drain` | src/scoped.rs:530-540 | ends with inbox and active set empty |
| `Scoped.ScopeRun.DriveScope` | src/scoped.rs:413-442 | returns registered and with an empty inbox, says `empty` exactly when no task is active, says progress exactly when a task completed, polls exactly when something was waiting, and leaves no woken task without a woken driver |
| `Scoped.ScopeRun.PollNext` | src/scoped.rs:426-437 | polls woken members until one completes, none is left or the set yields, and keeps the accounts |
| `Scoped.ScopeRun.PollChild` | src/scoped.rs:426-437 | a poll takes a finished task out of the set or puts what is left of it in its place, pushes what it spawns at the end of the inbox, and keeps spawned = inbox + active + completed |
| `Scoped.ScopeRun.Push` | src/scoped.rs:59-64 | pushes at the end of the inbox and takes the registered waker out of its slot to wake the driver |
| `Scoped.PollKeepsAccount` | src/scoped.rs:413-442 | the ids and the remaining work of inbox, active set and completions together stay the same across a poll |
| `TaskForest.PollLowersWeight` | src/scoped.rs:522-540 | each poll lowers the total remaining script size by one, which ends the drain |
| `ScopeProtocol.NoPushMissed` | src/scoped.rs:59-64 | while the scope rests unwoken its driver is registered, the inbox is empty or a pusher has yet to wake, and that wake reaches the driver |
| `ScopeProtocol.VerdictExact` | src/scoped.rs:413-442 | at the return of `drive_scope`, `empty` is true exactly when everything pushed so far has completed, and progress exactly when something completed in this call |
| `ScopeProtocol.QuietDriverReturns` | src/scoped.rs:413-442 | a driver with nothing left to poll that no push disturbs returns, with the exact verdict |
| `ScopeProtocol.WakesStartDriver` | src/scoped.rs:59-64 | the waker of a task and the wake of any push let a resting driver start again |
| `ScopeProtocol.RestHappens` | src/scoped.rs:413-442 | such a rest is reachable, with a completed, an active and a just pushed task |
| `ScopeProtocol.ConservedPreserved` | src/scoped.rs:413-442 | every step keeps pushed = inbox + active + completed |
| `ScopeProtocol.ReachableInv` | src/scoped.rs:413-442 | the invariant holds under any interleaving with pushes, wakes and spurious polls |
| `ExecutorScope.ScopeRun.ExecutorScope` | src/scoped.rs:683-698 | the outcome is the verdict that the closure and what happens between two polls determine: it returns exactly when the closure does and then every task finishes before the future is dropped; on return the value is the closure's, every tracked task has finished and none was aborted; when the future is dropped at any await point, or the closure panics, every tracked task has finished or has had abort requested; while it waits, every unfinished task is owned by one place |
| `ExecutorScope.VerdictWithoutDrops` | src/scoped.rs:683-698 | if the future is never dropped and the closure returns, the scope returns if and only if the closure's awaits end and every spawned task finishes after it was spawned; otherwise it waits |
| `ExecutorScope.ScopeRun.Drop` | src/scoped.rs:610-618 | dropping the awaited handle, the drained handles and the tracker settles every task, and aborts none that finished |
| `ExecutorScope.ScopeRun.AbortAll` | src/scoped.rs:570-575 | every tracked task is finished or asked to abort, and no other is |
| `ExecutorScope.ScopeRun.JoinAll` | src/scoped.rs:691-695 | the drained handles are joined in order, each exactly once, until one has to wait or the future is dropped |
| `ExecutorScope.ScopeRun.RunClosure` | src/scoped.rs:688-689 | the closure's part tracks one handle for each spawn, in order |
| `ExecutorScope.AllJoined` | src/scoped.rs:691-695 | when no handle is left, exactly the spawned tasks have finished |
| `JoinCell.WaiterNeverStranded` | src/lib.rs:649-658 | a waiter that saw Pending is woken, or still in the slot with a thread that owes the wake, or the cell still holds the handle it waits for, unchanged since; for the last registered waiter, under any interleaving |
| `JoinCellUse.WaitingHappens` | src/lib.rs:649-658 | a waiter that saw Pending, whose handle was then aborted under it and that is unwoken with a thread that owes the wake, is reachable |
| `JoinCellUse.PollSees` | src/lib.rs:651-658 | in any state, a poll of a handle that is not ready leaves exactly that waiter pending on exactly that handle, and one of a ready or empty cell leaves nobody pending |
| `JoinCellUse.PollAlone` | src/lib.rs:651-658 | an undisturbed poll puts the waiter into the slot, and leaves it pending exactly if the handle is not ready |
| `JoinCellUse.AbortReaches` | src/lib.rs:593-597 | in any state, an abort reaches the task whose handle the cell holds and no other, and then owes the wake |
| `JoinCellUse.AbortAlone` | src/lib.rs:593-597 | an undisturbed abort asks the task to stop, keeps the handle and wakes the waiter in the slot |
| `JoinCell.HandlesConserved` | src/lib.rs:611-631 | under any concurrent replaces every join handle is at exactly one place: one cell, one thread's hands, or dropped |
| `JoinCell.NoDeadlock` | src/lib.rs:611-631 | no thread waits for a lock while holding one, no lock is held twice, and some operation can always act |
| `JoinCell.OperationsEnd` | src/lib.rs:593-658 | however their actions interleave, the operations under way all end, after exactly as many actions as they have before them, and until then one of them can act |
| `JoinCell.ActionDiscipline` | src/lib.rs:611-631 | an operation holds at most one lock, exchanges only under it, and wakes the cell it changed after releasing it |
| `JoinCell.ReplaceAlone` | src/lib.rs:611-631 | undisturbed, `replace` moves the source's handle, empties the source, drops the old handle without aborting it, and wakes the waiters of both cells; replacing a cell by itself changes nothing |
| `JoinCell.ReplaceByLastClone` | src/lib.rs:611-643 | `replace` with the last clone of its source aborts nothing: the moved task stays in the destination and the source is gone |
| `JoinCell.MovedIsSafe` | src/lib.rs:611-643 | in any run, no step of any thread aborts a task whose handle a `replace` has in its hands, not even the drop of the cell it came from |
| `JoinCell.AbortsOnlyHeld` | src/lib.rs:593-643 | a task is asked to abort only by an `abort` of the cell that holds its handle, or with the last clone of that cell |
| `JoinCell.LastCloneDrops` | src/lib.rs:639-643 | the last clone takes along exactly the handle its cell holds, which it aborts; nobody holds the lock or owes the cell a wake, and every other handle stays where it is |
| `JoinCell.ReachableOk` | src/lib.rs:593-658 | lock, handle and wake invariants hold after any run |
| `CompioHandle.AnyUse` | src/lib.rs:308-382 | over any sequence of polls, aborts, `is_finished` checks and the task's end, the outcome is handed out by the first poll after the end, never before, never lost, never repeated, and counts as aborted exactly when an abort came before that poll |
| `CompioHandle.Handle.Poll` | src/lib.rs:523-541 | a poll answers as the one-shot result does, with Aborted for a cancel that yields no value |
| `CompioHandle.Handle.PollInner` | src/lib.rs:308-338 | the three states give the same outcome, a harvested one included, and never go back to Running |
| `CompioHandle.Handle.Abort` | src/lib.rs:342-363 | an abort counts unless the outcome was handed out, and the flag is set exactly when the state is not Running |
| `CompioHandle.Handle.IsFinished` | src/lib.rs:366-382 | answers whether the task has ended, and never changes what the next poll will see |
| `CompioWake.CompletionWakesWaiter` | src/lib.rs:247-290 | once the task has ended, the last waiter that saw Pending is woken, or the wake of the end or of an abort is still to come and reaches it, whoever set the waker first |
| `CompioWake.AbortWakesWaiter` | src/lib.rs:593-597 | a waiter that saw Pending before an abort turned the handle into a cancellation is woken through the shared cell, or its wake is still to come |
| `CompioWake.WaiterIsKept` | src/lib.rs:342-363 | while no wake is under way, the end of the task will find the waiter that saw Pending, in whichever slot it is |
| `CompioWake.PollSees` | src/lib.rs:308-338 | a poll of a task that has not stopped sees Pending and leaves its waker where the end of the task finds it; a poll of one that has stopped is ready |
| `CompioWake.AbortStops` | src/lib.rs:342-382 | an abort turns a running handle into a cancellation or takes its result, and a check of a cancellation takes its result if the task has stopped |
| `CompioWake.AbortOverWaiterHappens` | src/lib.rs:593-597 | a waiter aborted over after it saw Pending is reachable |
| `CompioWake.CancelledWaiterHappens` | src/lib.rs:247-290 | a waiter of a cancellation that has ended, with the wake on its way, is reachable |
| `CompioWake.ReachableInv` | src/lib.rs:247-290 | the three slots cover the waiter in every reachable state of polls, aborts, `is_finished` checks, the end and the wakes |
| `FileIo.CompioFile.PollRead` | src/fs/io.rs:312-378 | reading into a buffer, from leftover bytes or through the operation machine, does what the file specification says, and leaves the rest of the buffer alone |
| `FileIo.CompioFile.PollWrite` | src/fs/io.rs:380-433 | a polled write does what the specification says, whatever was in flight |
| `FileIo.CompioFile.PollFlush` | src/fs/io.rs:435-467 | a polled flush does what the specification says, whatever was in flight |
| `FileIo.CompioFile.PollSeek` | src/fs/io.rs:469-532 | a polled seek does what the specification says, whatever was in flight |
| `FileIo.CompioFile.PollInternalRead` | src/fs/io.rs:541-578 | the loop settles what is in flight, fails if that failed, and goes on to the read itself |
| `FileIo.CompioFile.PollInternalWrite` | src/fs/io.rs:587-613 | an abandoned write of other bytes is settled and counts for nothing |
| `FileIo.CompioFile.PollInternalSeek` | src/fs/io.rs:646-671 | a seek succeeds only by its own target, and any failed seek is reported |
| `FileIo.CompioFile.PollInternalFlush` | src/fs/io.rs:622-637 | a flush in flight answers, and any other operation is settled first |
| `FileIo.CompioFile.FinishDiscarded` | src/fs/io.rs:693-717 | a discarded operation still moves the cursor, and its error remains |
| `FileIo.CompioFile.DeliverRead` | src/fs/io.rs:554-578 | hands over what fits and keeps exactly the rest |
| `FileIo.CompioFile.ReadOperation` | src/fs/compio.rs:133-145 | reads at the cursor and advances it, or reports the overflow of the position |
| `FileIo.CompioFile.WriteOperation` | src/fs/compio.rs:147-157 | writes at the cursor and advances it; what reached the device stays there when the position overflows |
| `FileIo.CompioFile.SeekOperation` | src/fs/compio.rs:164-173 | resolves the target against the cursor or the length of the file |
| `FileIoSpec.WriteAt` | src/fs/compio.rs:147-157 | the bytes written are there afterwards and every other byte is as before |
| `FileIoDevice.SeekAnswers` | src/fs/io.rs:198-211 | a seek from the start, the end of the contents or the cursor answers with exactly that position and leaves the cursor there, or fails with `InvalidInput` outside 64 bits, or with the device's error, and leaves it alone |
| `FileIoDevice.ReadAnswers` | src/fs/compio.rs:133-145 | a read delivers bytes from the cursor on, at least one unless there is none, and moves the cursor behind them |
| `FileIoDevice.WriteAnswers` | src/fs/compio.rs:147-157 | a write puts the bytes the device accepts at the cursor, over what was there or behind zeros, and moves the cursor behind them |
| `FileIoDevice.WritesAtEndAppend` | src/fs/compio.rs:164-173 | after any run that leaves nothing in flight, seeking to the end and writing appends, and seeking there again finds nothing to read |
| `FileIoDevice.WritesAreReadBack` | src/fs/compio.rs:133-173 | after any such run, what is written at a position is read back there |
| `FileIoLaws.CursorIsFold` | src/fs/io.rs:1000-1013 | over any run, the stored position is the fold of the operations that ended, discarded or not; each started where the one before left the cursor |
| `FileIoLaws.FailuresReported` | src/fs/io.rs:693-717 | the errors callers see are exactly the failures of the operations, in order, each once |
| `FileIoLaws.SuccessAnswersRequest` | src/fs/io.rs:587-671 | a success reports an operation that ended in this poll; a write or seek only one with exactly the caller's bytes or target |
| `FileIoLaws.StreamUnbrokenIff` | src/fs/io.rs:541-578 | any reads and flushes, pending, abandoned or of any sizes, deliver one unbroken stretch of the file that ends at the cursor if and only if no flush finds a read in flight and ends it with bytes |
| `FileIoLaws.FlushOverReadCanBreak` | src/fs/io.rs:622-637 | a flush over a read in flight can break the stream whenever there is something left to read |
| `FileIoLaws.CarefulStreamUnbroken` | src/fs/io.rs:541-578 | without a flush over a read in flight, the delivered and leftover bytes are one contiguous slice from the starting cursor |
| `FileIoLaws.CallLoses` | src/fs/io.rs:693-717 | what a call loses is the whole read in flight if it is a flush that ends it, and nothing otherwise |
| `FileIoLaws.LeftoverIff` | src/fs/io.rs:541-578 | leftover bytes come from the one read that outgrew its reader's buffer, and are as many as the reads since have not asked for |
| `FileIoLaws.FlushBreaksStream` | src/fs/io.rs:622-637 | a pending read, a flush and a read: the file's two bytes are never delivered |
| `FileIoLaws.StreamPositionIff` | src/fs/io.rs:191-195 | over any run of reads and flushes, the stream position is the reader's own if and only if no call dropped a read in flight, nor does the seek, and no read outgrew its reader's buffer by more than was asked for since |
| `FileIoLaws.SmallReadMisplaces` | src/fs/io.rs:541-578 | a pending read retried with a smaller buffer: one byte delivered, one left over, and the position reported is two |
| `IoLoops.Source.ReadExact` | src/fs/io.rs:89-109 | succeeds exactly when enough bytes remain and are granted before a failure; then the buffer holds exactly the next bytes; at an unexpected end the buffer starts with all remaining bytes; after another error with those consumed, and nothing else changed |
| `IoLoops.Source.ReadToEnd` | src/fs/io.rs:112-128 | succeeds exactly when no call fails before one finds the source empty; then it has appended exactly the remaining bytes and returns their number; otherwise it reports the first failure, and has appended those consumed |
| `IoLoops.DrainsIff` | src/fs/io.rs:112-128 | when a pattern of chunked, interrupted and failing calls empties a source, as a sum over the calls before the first failure |
| `IoLoops.Source.ReadToString` | src/fs/io.rs:131-143 | succeeds exactly when the source is emptied before a call fails and its bytes are valid, and then appends the decoded bytes; otherwise it reports invalid data or the first failure and leaves the output unchanged |
| `IoLoops.Sink.WriteAll` | src/fs/io.rs:152-172 | succeeds exactly when the sink takes all bytes before it fails or takes none; the sink has the whole buffer, or a proper prefix of it after an error |
| `IoLoops.GrantsIff` | src/fs/io.rs:89-172 | the bytes that a pattern of short, interrupted and failing calls grants, as a sum over the calls before the first failure |
| `OpfsPath.SplitPath` | src/fs/wasm.rs:792-822 | the loop computes the resolution of the components from the root |
| `OpfsPath.SplitParent` | src/fs/wasm.rs:781-790 | splits off the last name, and refuses the root |
| `OpfsPath.ResolvesIff` | src/fs/wasm.rs:792-822 | a path resolves if and only if its components are valid names without prefix and no prefix of it has more parents than names; then the names left are those entered and never left again, as many as normals minus parents |
| `OpfsPath.FailsIff` | src/fs/wasm.rs:792-822 | an error is returned if and only if the first bad component is of that kind |
| `OpfsPath.LeadsOutsideIff` | src/fs/wasm.rs:798-805 | among paths of valid components, exactly those with a prefix of more parents than names lead outside |
| `OpfsPath.LeavesUnique` | src/fs/wasm.rs:792-822 | the names a path leaves are determined by that description |
| `OpfsPath.ResolveConcat` | src/fs/wasm.rs:792-822 | splitting a concatenation is continuing from the first result |
| `OpfsPath.SplitPushed` | src/fs/wasm.rs:496-514 | resolving a joined path, as a string, continues from where the first path leads, unless the second is absolute |
| `OpfsPath.DotsLead` | src/fs/wasm.rs:792-822 | a dot stays where the path leads, two dots go to its parent and fail at the root |
| `OpfsPath.SplitIsProper` | src/fs/wasm.rs:792-822 | the names of a resolved path are names a component can have |
| `OpfsPath.JoinedPath` | src/fs/wasm.rs:516-522 | the loop writes the names as one absolute path |
| `OpfsPath.SplitJoined` | src/fs/wasm.rs:516-522 | splitting the joined path of a list of names gives the names back |
| `OpfsPath.JoinedInjective` | src/fs/wasm.rs:318-324 | equal canonical paths have equal names, so comparing paths compares entries |
| `OpfsPath.Canonical` | src/fs/wasm.rs:351-356 | the canonical path leads where the path leads |
| `OpfsPath.CanonicalIdempotent` | src/fs/wasm.rs:351-356 | a canonical path is its own, and two paths share one exactly when they lead to the same entry |
| `OpfsTree.ApartIff` | src/fs/wasm.rs:329-341 | a directory's copy meets its source if and only if it goes to an ancestor and the source has an entry at the path that leads to it from there |
| `OpfsTree.KeepsSource` | src/fs/wasm.rs:496-514 | a copy that stays apart leaves the source subtree alone, even when it fails half-way |
| `OpfsTree.PutOne` | src/fs/wasm.rs:502-512 | copying one more entry of a directory extends the copy by exactly that entry's subtree |
| `OpfsTree.PartlyPutOne` | src/fs/wasm.rs:502-512 | an entry copied in part leaves each place as it was, as the copy wants it, or a new empty file |
| `OpfsTree.CopyThenRemove` | src/fs/wasm.rs:340-341 | copying and then removing the source is the move |
| `OpfsTree.OverlapLoses` | src/fs/wasm.rs:332-341 | when the copy meets its source, copying and removing is never the move |
| `OpfsTree.RenameToParentFails` | src/fs/wasm.rs:332-341 | a concrete tree and rename for which no tree without the source is the move |
| `OpfsFiles.RenameToParent` | src/fs/wasm.rs:318-342 | a run of that rename: it reports success and is not the move |
| `OpfsTree.MoveBack` | src/fs/wasm.rs:318-342 | a move to a free place in an existing directory is undone by the move back |
| `OpfsFiles.FileSystem.DirectoryAt` | src/fs/wasm.rs:621-635 | walks to a directory, making exactly the missing ones on the way when asked to; reaches it exactly when no file is in the way, or exactly when it exists |
| `OpfsFiles.FileSystem.PathMetadata` | src/fs/wasm.rs:637-665 | tells a file from a directory, and fails exactly when there is no entry |
| `OpfsFiles.FileSystem.FileAt` | src/fs/wasm.rs:548-560 | opens or makes a file, exactly when its directory exists and it is not a directory itself |
| `OpfsFiles.FileSystem.Write` | src/fs/wasm.rs:129-140 | the file has the new contents, or is unchanged, or is a new empty file |
| `OpfsFiles.FileSystem.Copy` | src/fs/wasm.rs:344-349 | the target file gets the source's contents and nothing else changes |
| `OpfsFiles.FileSystem.RemoveEntry` | src/fs/wasm.rs:464-494 | removes exactly the entry's subtree, and only if it is of the kind asked for |
| `OpfsFiles.FileSystem.NextEntry` | src/fs/wasm.rs:373-411 | returns an entry of the directory as it is now that was not returned before, and none only when all were |
| `OpfsFiles.FileSystem.CopyDirectory` | src/fs/wasm.rs:496-514 | ends, also when it copies into what it iterates over, and no entry goes away; apart from its source, success means the source subtree merged over the target and everything else unchanged, failure leaves the source untouched and each place old or copied; when no call fails it succeeds exactly if no file meets a directory |
| `OpfsFiles.FileSystem.RenameFile` | src/fs/wasm.rs:325-328 | moves a file over a file or a free place and changes nothing else; after a failure the source is still there |
| `OpfsFiles.FileSystem.RenameDirectory` | src/fs/wasm.rs:329-342 | success is the move exactly when source and target do not overlap; a failure keeps every entry, and without an overlap leaves the source untouched |
| `OpfsFiles.FileSystem.RenameNames` | src/fs/wasm.rs:318-342 | for all pairs of paths: equal paths change nothing; a directory is never moved into itself, with that error; success is the move if and only if the rename does not overlap; failure keeps every entry; without an overlap failure leaves the source untouched and each other place old or moved, and when no call fails, success is exactly when the move is possible |
| `OpfsFiles.FileSystem.Rename` | src/fs/wasm.rs:318-324 | the same promises for the names that the components of the two paths resolve to; their errors come first and change nothing; success means that no call failed on the way |

## Left out

- The Tokio, Smol, Compio, threadpool, wasm and dummy runtimes, and the networking code: they forward to libraries outside this model.
- `src/arc.rs`, `src/rc.rs`, `src/either.rs`, `src/tracker.rs`, the coroutine spawn variants and the macros: delegation, counters and token generation that would only add easy members.
- Task panics inside the lite executor and `scope`: they are caught around each task, so a panicking task counts as one that completes.
- The values that `ScopedJoinHandle` and the lite join handle deliver; the models follow which task completes, not with what.
- Memory ordering, lifetimes and pinning: atomic actions are sequentially consistent.
- Real time: timeouts and delays are not part of this model.
- Futures that park the driving thread themselves; nested `block_on` on one thread is only followed to the deadlock on the entry lock (`TaskContext`).
- `JoinCell.WaiterNeverStranded`: claims hold for the last registered waiter, because the cell stores one waker.
- `JoinCell.LastCloneDrops`: the drop of the last clone is one step, since no other thread can refer to the cell.
- The detach-on-drop of an unaborted Compio handle, and the join handle kinds of the other runtimes.
- `CompioWake.CompletionWakesWaiter`: about the waiter that saw Pending last, as each slot holds one waker; polls of one cell do not overlap, and `replace` is left to `JoinCell`.
- The blocking and browser backends of the file machine, including append mode; the Tokio and Smol backends bypass it.
- The run-time check of the number of bytes a read reports: the Compio read cannot report more than its buffer.
- `FileIoLaws.StreamUnbrokenIff`: reads and flushes only, because a write or seek drops leftover bytes without rewinding.
- Flushes to the device and power loss; `CompioFile` holds its bytes as a sequence that each write changes at once.
- `IoLoops.Source.ReadToString`: UTF-8 decoding is a parameter.
- Path prefixes never come from `/`-separated paths; the branch is kept in `OpfsPath.SplitPath` only.
- OPFS error names, timestamps, sizes in metadata, permissions, and positioned writes, truncation and options of open files.
- `OpfsFiles.FileSystem.RemoveEntry`: a removal that fails is taken to have removed nothing.
- `OpfsFiles.FileSystem.CopyDirectory`: for a copy that overlaps its source it states only that the copy ends and keeps every entry, as the contents then depend on the order in which the browser lists the directory; what is wrong follows from removing the source.
- `OpfsFiles.FileSystem.RenameNames`: for a rename that overlaps, success without failing calls is promised only for trees of directories, for the same reason.
- `Scoped.RunScope`: a scope polled spuriously for ever, with no task making progress, is not a run that ends.
- `create_dir`, `remove_dir` on its own, `try_exists` and directory listing as such: one branch settles each.
