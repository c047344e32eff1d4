/**
 What holds over any run of polls of a file, in whatever order callers make,
 abandon and change their requests.
 */
module FileIoLaws {
  import opened Common
  import opened FileIoSpec

  // ----- The cursor is the fold of the operations that ended -----

  /** The cursor after the operations in `log`, each moving it once. */
  function Cursor(start: nat, log: seq<Entry>): nat {
    if log == [] then start
    else CursorAfter(Cursor(start, log[..|log| - 1]), log[|log| - 1].outcome)
  }

  /** Every operation starts from where the one before it left the cursor. */
  ghost predicate Serial(start: nat, log: seq<Entry>) {
    forall i | 0 <= i < |log| :: log[i].op.cursor == Cursor(start, log[..i])
  }

  ghost predicate Synced(f: File, start: nat) {
    && f.cursor == Cursor(start, f.log)
    && Serial(start, f.log)
    && (f.operation.Some? ==> f.operation.value.cursor == f.cursor)
  }

  lemma SettleKeepsSync(f: File, polled: Request, op: Operation, reply: Reply, start: nat)
    requires Synced(f, start) && op.cursor == f.cursor && !reply.NotReady?
    ensures Synced(Settle(f, polled, op, reply).0, start)
  {
    var (f', outcome) := Settle(f, polled, op, reply);
    hide Perform;
    var log := f'.log;
    assert log[..|f.log|] == f.log;
    forall i | 0 <= i < |log|
      ensures log[i].op.cursor == Cursor(start, log[..i])
    {
      assert i < |f.log| ==> log[..i] == f.log[..i] && log[i] == f.log[i];
    }
  }

  lemma {:induction false} PollOperationKeepsSync(f: File, request: Request, replies: seq<Reply>, start: nat)
    requires Synced(f, start)
    ensures Synced(PollOperation(f, request, replies).0, start)
    decreases |replies|
  {
    hide Cursor, Serial;
    var op := if f.operation.Some? then f.operation.value else Operation(request, f.cursor);
    if replies != [] && !replies[0].NotReady? {
      SettleKeepsSync(f, request, op, replies[0], start);
      hide Settle;
      var (f', outcome) := Settle(f, request, op, replies[0]);
      if !Answers(request, op) && outcome.Ok? {
        PollOperationKeepsSync(f', request, replies[1..], start);
      }
    }
  }

  lemma {:induction false} RunKeepsSync(content: seq<byte>, start: nat, calls: seq<Call>)
    ensures Synced(Run(Open(content, start), calls).0, start)
    decreases |calls|
  {
    if calls != [] {
      var before := calls[..|calls| - 1];
      RunKeepsSync(content, start, before);
      var f := Run(Open(content, start), before).0;
      var call := calls[|calls| - 1];
      hide Run, PollOperation, Cursor, Serial;
      PollOperationKeepsSync(f, call.request, call.replies, start);
      PollOperationKeepsSync(f.(leftover := []), call.request, call.replies, start);
    }
  }

  /** The stored position is the fold of the operations that succeeded, discarded or
      not: each is observed once, in the order they started, and each worked from
      where the one before it left off. */
  lemma CursorIsFold(content: seq<byte>, start: nat, calls: seq<Call>)
    ensures var f := Run(Open(content, start), calls).0;
            && f.cursor == Cursor(start, f.log)
            && (forall i | 0 <= i < |f.log| :: f.log[i].op.cursor == Cursor(start, f.log[..i]))
            && (f.operation.Some? ==> f.operation.value.cursor == f.cursor)
  {
    RunKeepsSync(content, start, calls);
  }

  // ----- Every failure is reported, once, by the poll that observes it -----

  function Failures(log: seq<Entry>): seq<Error> {
    if log == [] then []
    else
      var last := log[|log| - 1].outcome;
      Failures(log[..|log| - 1]) + if last.Err? then [last.error] else []
  }

  function Errors(results: seq<Poll<IoResult<Output>>>): seq<Error> {
    if results == [] then []
    else Errors(results[..|results| - 1]) + ErrorOf(results[|results| - 1])
  }

  function ErrorOf(result: Poll<IoResult<Output>>): seq<Error> {
    if result.Ready? && result.result.Err? then [result.result.error] else []
  }

  lemma FailuresAppend(log: seq<Entry>, entry: Entry)
    ensures Failures(log + [entry]) == Failures(log) + if entry.outcome.Err? then [entry.outcome.error] else []
  {
    assert (log + [entry])[..|log|] == log;
  }

  lemma {:induction false} PollReportsFailure(f: File, request: Request, replies: seq<Reply>)
    ensures var (f', result) := PollOperation(f, request, replies);
            Failures(f'.log) == Failures(f.log) + ErrorOf(result)
    decreases |replies|
  {
    var op := if f.operation.Some? then f.operation.value else Operation(request, f.cursor);
    if replies != [] && !replies[0].NotReady? {
      var (f', outcome) := Settle(f, request, op, replies[0]);
      hide Perform, Failures;
      FailuresAppend(f.log, Entry(request, op, outcome));
      if !Answers(request, op) && outcome.Ok? {
        PollReportsFailure(f', request, replies[1..]);
      }
    }
  }

  lemma PollFileReportsFailure(f: File, request: Request, replies: seq<Reply>)
    ensures var (f', result) := PollFile(f, request, replies);
            Failures(f'.log) == Failures(f.log) + ErrorOf(result)
  {
    PollReportsFailure(f, request, replies);
    PollReportsFailure(f.(leftover := []), request, replies);
    hide PollOperation, Failures;
    assert Failures(f.log) == Failures(f.log) + [];
  }

  lemma {:induction false} FailuresReported(content: seq<byte>, start: nat, calls: seq<Call>)
    ensures var (f, results) := Run(Open(content, start), calls);
            Errors(results) == Failures(f.log)
    decreases |calls|
  {
    if calls != [] {
      var before := calls[..|calls| - 1];
      FailuresReported(content, start, before);
      var (f, results) := Run(Open(content, start), before);
      var call := calls[|calls| - 1];
      PollFileReportsFailure(f, call.request, call.replies);
      hide PollFile, Failures;
      var result := PollFile(f, call.request, call.replies).1;
      assert (results + [result])[..|results|] == results;
    }
  }

  // ----- A success answers the caller's own request -----

  /** A successful poll has just observed the end of an operation that answers the
      request; what it reports is that operation's outcome, up to the reader's
      buffer. In particular a write or seek succeeds only through an operation with
      exactly the caller's bytes or target. */
  lemma {:induction false} SuccessAnswersRequest(f: File, request: Request, replies: seq<Reply>)
    ensures var (f', result) := PollOperation(f, request, replies);
            result.Ready? && result.result.Ok? ==>
              && |f'.log| > |f.log| && f.log <= f'.log
              && var last := f'.log[|f'.log| - 1];
              && last.polled == request && last.outcome.Ok? && f'.operation.None?
              && (request.ReadInto? ==> last.op.request.ReadInto?)
              && (!request.ReadInto? ==> last.op.request == request && result.result == last.outcome)
    decreases |replies|
  {
    var op := if f.operation.Some? then f.operation.value else Operation(request, f.cursor);
    if replies != [] && !replies[0].NotReady? {
      var (f', outcome) := Settle(f, request, op, replies[0]);
      hide Perform;
      if !Answers(request, op) && outcome.Ok? {
        SuccessAnswersRequest(f', request, replies[1..]);
      }
    }
  }

  // ----- The read stream -----

  /** Reading and flushing only. */
  predicate Streaming(calls: seq<Call>) {
    forall i | 0 <= i < |calls| :: calls[i].request.ReadInto? || calls[i].request.Flush?
  }

  function Delivered(results: seq<Poll<IoResult<Output>>>): seq<byte> {
    if results == [] then [] else Delivered(results[..|results| - 1]) + BytesOf(results[|results| - 1])
  }

  function BytesOf(result: Poll<IoResult<Output>>): seq<byte> {
    if result.Ready? && result.result.Ok? && result.result.value.Bytes? then result.result.value.data else []
  }

  /** The bytes of a read whose end was observed by a poll that did not ask for them. */
  function LostIn(entry: Entry): nat {
    if entry.op.request.ReadInto? && !entry.polled.ReadInto? && entry.outcome.Ok? && entry.outcome.value.Bytes?
    then |entry.outcome.value.data| else 0
  }

  function Lost(log: seq<Entry>): nat {
    if log == [] then 0 else Lost(log[..|log| - 1]) + LostIn(log[|log| - 1])
  }

  /** `data` is what the file holds from `start` on. */
  predicate FromStart(content: seq<byte>, start: nat, data: seq<byte>) {
    |data| <= Remaining(content, start) && data == ReadAt(content, start, |data|)
  }

  /** The state of a stream that began at `start` and has delivered `delivered`. */
  ghost predicate InStream(f: File, content: seq<byte>, start: nat, delivered: seq<byte>) {
    && f.content == content
    && (f.operation.Some? ==>
          && f.operation.value.cursor == f.cursor
          && (f.operation.value.request.ReadInto? || f.operation.value.request.Flush?)
          && (f.operation.value.request.ReadInto? ==> f.leftover == []))
    && f.cursor == start + |delivered + f.leftover| + Lost(f.log)
    && (Lost(f.log) == 0 ==> FromStart(content, start, delivered + f.leftover))
  }

  lemma LostAppend(log: seq<Entry>, entry: Entry)
    ensures Lost(log + [entry]) == Lost(log) + LostIn(entry)
  {
    assert (log + [entry])[..|log|] == log;
  }

  lemma ReadExtends(content: seq<byte>, start: nat, data: seq<byte>, n: nat)
    requires FromStart(content, start, data) && n <= Remaining(content, start + |data|)
    ensures FromStart(content, start, data + ReadAt(content, start + |data|, n))
  {
  }

  /** A read that a reader asked for continues the stream. */
  lemma ReadSettles(f: File, len: nat, op: Operation, reply: Reply,
                    content: seq<byte>, start: nat, delivered: seq<byte>)
    requires InStream(f, content, start, delivered) && f.leftover == [] && !reply.NotReady?
    requires op.request.ReadInto? && op.cursor == f.cursor
    ensures var (f', outcome) := Settle(f, ReadInto(len), op, reply);
            var (f'', answer) := Answer(f', ReadInto(len), outcome);
            InStream(f'', content, start, delivered + BytesOf(Ready(answer)))
  {
    var (f', outcome) := Settle(f, ReadInto(len), op, reply);
    var (f'', answer) := Answer(f', ReadInto(len), outcome);
    LostAppend(f.log, Entry(ReadInto(len), op, outcome));
    hide Lost, FromStart, Transfer;
    assert delivered + f.leftover == delivered;
    if outcome.Ok? {
      var data := outcome.value.data;
      assert delivered + BytesOf(Ready(answer)) + f''.leftover == delivered + data;
      if Lost(f.log) == 0 {
        ReadExtends(content, start, delivered, |data|);
      }
    } else {
      assert delivered + BytesOf(Ready(answer)) + f''.leftover == delivered;
    }
  }

  /** An operation whose outcome is discarded, or a flush, delivers nothing. */
  lemma OtherSettles(f: File, polled: Request, op: Operation, reply: Reply,
                     content: seq<byte>, start: nat, delivered: seq<byte>)
    requires InStream(f, content, start, delivered) && !reply.NotReady? && op.cursor == f.cursor
    requires op.request.Flush? || (op.request.ReadInto? && polled.Flush?)
    ensures InStream(Settle(f, polled, op, reply).0, content, start, delivered)
  {
    var (f', outcome) := Settle(f, polled, op, reply);
    LostAppend(f.log, Entry(polled, op, outcome));
    hide Lost;
  }

  lemma {:induction false} PollKeepsStream(f: File, request: Request, replies: seq<Reply>,
                                           content: seq<byte>, start: nat, delivered: seq<byte>)
    requires InStream(f, content, start, delivered)
    requires request.Flush? || (request.ReadInto? && f.leftover == [])
    ensures var (f', result) := PollOperation(f, request, replies);
            InStream(f', content, start, delivered + BytesOf(result))
    decreases |replies|
  {
    var op := if f.operation.Some? then f.operation.value else Operation(request, f.cursor);
    assert delivered + [] == delivered;
    hide Perform, Lost, FromStart;
    if replies != [] && !replies[0].NotReady? {
      var (f', outcome) := Settle(f, request, op, replies[0]);
      if op.request.ReadInto? && request.ReadInto? {
        ReadSettles(f, request.len, op, replies[0], content, start, delivered);
      } else {
        OtherSettles(f, request, op, replies[0], content, start, delivered);
        assert f'.leftover == f.leftover;
        if !Answers(request, op) && outcome.Ok? {
          PollKeepsStream(f', request, replies[1..], content, start, delivered);
        }
      }
    }
  }

  lemma PollFileKeepsStream(f: File, request: Request, replies: seq<Reply>,
                            content: seq<byte>, start: nat, delivered: seq<byte>)
    requires InStream(f, content, start, delivered)
    requires request.Flush? || request.ReadInto?
    ensures var (f', result) := PollFile(f, request, replies);
            InStream(f', content, start, delivered + BytesOf(result))
  {
    if request.Flush? || f.leftover == [] {
      PollKeepsStream(f, request, replies, content, start, delivered);
      hide PollOperation;
      assert delivered + [] == delivered;
    } else {
      var n := Min(request.len, |f.leftover|);
      assert delivered + [] == delivered;
      assert delivered + f.leftover[..n] + f.leftover[n..] == delivered + f.leftover;
    }
  }

  lemma {:induction false} RunKeepsStream(content: seq<byte>, start: nat, calls: seq<Call>)
    requires Streaming(calls)
    ensures var (f, results) := Run(Open(content, start), calls);
            InStream(f, content, start, Delivered(results))
    decreases |calls|
  {
    if calls != [] {
      var before := calls[..|calls| - 1];
      RunKeepsStream(content, start, before);
      var (f, results) := Run(Open(content, start), before);
      var call := calls[|calls| - 1];
      PollFileKeepsStream(f, call.request, call.replies, content, start, Delivered(results));
      hide PollFile, InStream;
      var result := PollFile(f, call.request, call.replies).1;
      assert (results + [result])[..|results|] == results;
    }
  }

  /** The delivered bytes and those left over are one unbroken stretch of the file
      that ends at the cursor. */
  predicate Unbroken(f: File, content: seq<byte>, start: nat, delivered: seq<byte>) {
    f.cursor == start + |delivered + f.leftover| && FromStart(content, start, delivered + f.leftover)
  }

  // ----- When bytes are lost -----

  /** The state in which call `i` finds the file. */
  function Before(content: seq<byte>, start: nat, calls: seq<Call>, i: nat): File
    requires i <= |calls|
  {
    Run(Open(content, start), calls[..i]).0
  }

  /** How many bytes a read in flight returns when this call's first reply ends it. */
  function Ended(f: File, replies: seq<Reply>): nat {
    if f.operation.None? || !f.operation.value.request.ReadInto? || replies == [] || replies[0].NotReady? then 0
    else
      match Perform(f.content, f.operation.value, replies[0]).0
      case Ok(Bytes(data)) => |data|
      case _ => 0
  }

  /** The bytes that a call drops: those of a read in flight that it ends unasked. */
  function Dropped(f: File, call: Call): nat {
    if call.request.ReadInto? then 0 else Ended(f, call.replies)
  }

  ghost predicate NothingDropped(content: seq<byte>, start: nat, calls: seq<Call>) {
    forall i | 0 <= i < |calls| :: Dropped(Before(content, start, calls, i), calls[i]) == 0
  }

  lemma {:induction false} ReadLosesNothing(f: File, request: Request, replies: seq<Reply>)
    requires request.ReadInto? || f.operation.None? || !f.operation.value.request.ReadInto?
    ensures Lost(PollOperation(f, request, replies).0.log) == Lost(f.log)
    decreases |replies|
  {
    if replies != [] && !replies[0].NotReady? {
      var op := if f.operation.Some? then f.operation.value else Operation(request, f.cursor);
      var (f', outcome) := Settle(f, request, op, replies[0]);
      LostAppend(f.log, Entry(request, op, outcome));
      hide Lost, Perform;
      if !Answers(request, op) && outcome.Ok? {
        ReadLosesNothing(f', request, replies[1..]);
      }
    }
  }

  lemma CallLoses(f: File, call: Call)
    requires call.request.ReadInto? || call.request.Flush?
    ensures Lost(PollFile(f, call.request, call.replies).0.log) == Lost(f.log) + Dropped(f, call)
  {
    hide Perform, Lost, PollOperation;
    var request, replies := call.request, call.replies;
    if request.ReadInto? || f.operation.None? || !f.operation.value.request.ReadInto? {
      ReadLosesNothing(f, request, replies);
    } else {
      FlushLoses(f, replies);
    }
  }

  lemma FlushLoses(f: File, replies: seq<Reply>)
    requires f.operation.Some? && f.operation.value.request.ReadInto?
    ensures Lost(PollOperation(f, Flush, replies).0.log) == Lost(f.log) + Ended(f, replies)
  {
    hide Perform, Lost;
    if replies != [] && !replies[0].NotReady? {
      var op := f.operation.value;
      var (f', outcome) := Settle(f, Flush, op, replies[0]);
      LostAppend(f.log, Entry(Flush, op, outcome));
      ReadLosesNothing(f', Flush, replies[1..]);
    }
  }

  lemma {:induction false} RunLoses(content: seq<byte>, start: nat, calls: seq<Call>)
    requires Streaming(calls)
    ensures Lost(Run(Open(content, start), calls).0.log) == 0 <==> NothingDropped(content, start, calls)
    decreases |calls|
  {
    if calls != [] {
      var n := |calls| - 1;
      var front := calls[..n];
      RunLoses(content, start, front);
      CallLoses(Before(content, start, calls, n), calls[n]);
      DroppedOneMore(content, start, front, calls[n]);
      hide Lost, PollFile, Dropped, NothingDropped;
      assert calls == front + [calls[n]];
    }
  }

  lemma BeforeOneMore(content: seq<byte>, start: nat, calls: seq<Call>, call: Call)
    ensures forall i | 0 <= i <= |calls| ::
              Before(content, start, calls + [call], i) == Before(content, start, calls, i)
    ensures Before(content, start, calls, |calls|) == Run(Open(content, start), calls).0
  {
    assert calls[..|calls|] == calls;
    assert forall i | 0 <= i <= |calls| :: (calls + [call])[..i] == calls[..i];
  }

  lemma DroppedOneMore(content: seq<byte>, start: nat, calls: seq<Call>, call: Call)
    ensures NothingDropped(content, start, calls + [call]) <==>
      NothingDropped(content, start, calls) && Dropped(Run(Open(content, start), calls).0, call) == 0
  {
    BeforeOneMore(content, start, calls, call);
    var more := calls + [call];
    hide Before, Run, Dropped;
    assert more[|calls|] == call;
    assert forall i | 0 <= i < |calls| :: more[i] == calls[i];
  }

  /** Reads with any buffer sizes, pending or abandoned at will and mixed with flushes,
      deliver one unbroken stretch of the file exactly if no flush comes while a read is
      in flight and is the one to end it, with bytes. */
  lemma StreamUnbrokenIff(content: seq<byte>, start: nat, calls: seq<Call>)
    requires Streaming(calls)
    ensures var (f, results) := Run(Open(content, start), calls);
            Unbroken(f, content, start, Delivered(results)) <==> NothingDropped(content, start, calls)
  {
    RunKeepsStream(content, start, calls);
    RunLoses(content, start, calls);
  }

  /** No flush is called while a read is in flight. */
  ghost predicate NoFlushOverRead(content: seq<byte>, start: nat, calls: seq<Call>) {
    forall i | 0 <= i < |calls| && calls[i].request.Flush? ::
      var op := Before(content, start, calls, i).operation;
      !(op.Some? && op.value.request.ReadInto?)
  }

  /** So a caller who never flushes over a read in flight loses nothing. */
  lemma CarefulStreamUnbroken(content: seq<byte>, start: nat, calls: seq<Call>)
    requires Streaming(calls) && NoFlushOverRead(content, start, calls)
    ensures var (f, results) := Run(Open(content, start), calls);
            Unbroken(f, content, start, Delivered(results))
  {
    assert forall i | 0 <= i < |calls| :: calls[i].request.ReadInto? || calls[i].request.Flush?;
    StreamUnbrokenIff(content, start, calls);
  }

  lemma InFlightWants(f: File, call: Call)
    requires call.request.ReadInto? || call.request.Flush?
    requires f.operation.Some? && f.operation.value.request.ReadInto? ==> f.operation.value.request.len > 0
    ensures var f' := PollFile(f, call.request, call.replies).0;
            f'.operation.Some? && f'.operation.value.request.ReadInto? ==> f'.operation.value.request.len > 0
  {
    if call.replies != [] && !call.replies[0].NotReady? {
      hide Perform;
      var op := if f.operation.Some? then f.operation.value else Operation(call.request, f.cursor);
      var f' := Settle(f, call.request, op, call.replies[0]).0;
      PollStartsOwn(f', call.request, call.replies[1..]);
    }
  }

  /** A poll with nothing in flight leaves nothing but its own request in flight. */
  lemma PollStartsOwn(f: File, request: Request, replies: seq<Reply>)
    requires f.operation.None?
    ensures var f' := PollOperation(f, request, replies).0;
            f'.operation.Some? ==> f'.operation.value.request == request
  {
  }

  lemma {:induction false} RunInFlightWants(content: seq<byte>, start: nat, calls: seq<Call>)
    requires Streaming(calls)
    ensures var op := Run(Open(content, start), calls).0.operation;
            op.Some? && op.value.request.ReadInto? ==> op.value.request.len > 0
    decreases |calls|
  {
    if calls != [] {
      var n := |calls| - 1;
      RunInFlightWants(content, start, calls[..n]);
      InFlightWants(Before(content, start, calls, n), calls[n]);
      hide PollFile;
    }
  }

  /** And one who does can lose something whenever there is something left to read: the
      read may end in the flush. */
  lemma FlushOverReadCanBreak(content: seq<byte>, start: nat, calls: seq<Call>)
    requires Streaming(calls)
    requires var f := Run(Open(content, start), calls).0;
             && f.operation.Some? && f.operation.value.request.ReadInto?
             && Remaining(content, f.cursor) > 0 && f.cursor + 1 < CURSOR_LIMIT
    ensures var (f, results) := Run(Open(content, start), calls + [Call(Flush, [Done(1)])]);
            !Unbroken(f, content, start, Delivered(results))
  {
    var flush := Call(Flush, [Done(1)]);
    var more := calls + [flush];
    RunKeepsStream(content, start, calls);
    RunInFlightWants(content, start, calls);
    assert more[..|calls|] == calls;
    assert Dropped(Before(content, start, more, |calls|), more[|calls|]) == 1;
    StreamUnbrokenIff(content, start, more);
  }

  // ----- Where the reader stands -----

  /** By how much a read in flight outgrows the buffer of the reader who ends it. */
  function Excess(f: File, call: Call): nat {
    if call.request.ReadInto? && call.request.len > 0 && Ended(f, call.replies) > call.request.len
    then Ended(f, call.replies) - call.request.len else 0
  }

  /** How many bytes these calls ask for. */
  function Wanted(calls: seq<Call>): nat {
    if calls == [] then 0
    else Wanted(calls[..|calls| - 1]) + ReadLen(calls[|calls| - 1])
  }

  function ReadLen(call: Call): nat {
    if call.request.ReadInto? then call.request.len else 0
  }

  lemma ReadLeaves(f: File, call: Call)
    requires call.request.ReadInto? || call.request.Flush?
    requires f.operation.Some? && f.operation.value.request.ReadInto? ==> f.leftover == []
    ensures var f' := PollFile(f, call.request, call.replies).0;
            |f'.leftover| == if f.leftover == [] then Excess(f, call)
                             else |f.leftover| - Min(ReadLen(call), |f.leftover|)
  {
    var request, replies := call.request, call.replies;
    if request.Flush? {
      FlushLeaves(f, replies);
    } else if request.len > 0 && f.leftover == [] && replies != [] && !replies[0].NotReady? {
      var op := if f.operation.Some? then f.operation.value else Operation(request, f.cursor);
      var (f', outcome) := Settle(f, request, op, replies[0]);
      if !op.request.ReadInto? {
        OwnReadLeaves(f', request, replies[1..]);
      }
    }
  }

  lemma OwnReadLeaves(f: File, request: Request, replies: seq<Reply>)
    requires request.ReadInto? && f.operation.None?
    ensures PollOperation(f, request, replies).0.leftover == f.leftover
  {
  }

  lemma {:induction false} FlushLeaves(f: File, replies: seq<Reply>)
    ensures PollOperation(f, Flush, replies).0.leftover == f.leftover
    decreases |replies|
  {
    if replies != [] && !replies[0].NotReady? {
      var op := if f.operation.Some? then f.operation.value else Operation(Flush, f.cursor);
      var (f', outcome) := Settle(f, Flush, op, replies[0]);
      hide Perform;
      if !Answers(Flush, op) && outcome.Ok? {
        FlushLeaves(f', replies[1..]);
      }
    }
  }

  /** What call `i` left over, less what the calls after it have asked for. */
  function Unused(content: seq<byte>, start: nat, calls: seq<Call>, i: nat): int
    requires i < |calls|
  {
    Excess(Before(content, start, calls, i), calls[i]) - Wanted(calls[i + 1..])
  }

  /** Call `i` left more than the calls after it have asked for. */
  ghost predicate Outgrown(content: seq<byte>, start: nat, calls: seq<Call>, i: nat)
    requires i < |calls|
  {
    Unused(content, start, calls, i) > 0
  }

  /** What is left over comes from the one read that outgrew its reader's buffer and has
      not been used up since. */
  lemma {:induction false} LeftoverIff(content: seq<byte>, start: nat, calls: seq<Call>)
    requires Streaming(calls)
    ensures var left := |Run(Open(content, start), calls).0.leftover|;
            && (forall i | 0 <= i < |calls| ::
                  Outgrown(content, start, calls, i) ==> left == Unused(content, start, calls, i))
            && (left > 0 ==> exists i | 0 <= i < |calls| :: Outgrown(content, start, calls, i))
    decreases |calls|
  {
    if calls != [] {
      var n := |calls| - 1;
      var front := calls[..n];
      LeftoverIff(content, start, front);
      RunKeepsStream(content, start, front);
      var f := Before(content, start, calls, n);
      ReadLeaves(f, calls[n]);
      assert Excess(f, calls[n]) > 0 ==> f.leftover == [];
      assert front + [calls[n]] == calls;
      OutgrownOneMore(content, start, front, calls[n]);
      LeftoverStep(content, start, front, calls[n], |f.leftover|,
                   |Run(Open(content, start), calls).0.leftover|, Excess(f, calls[n]));
    }
  }

  lemma LeftoverStep(content: seq<byte>, start: nat, calls: seq<Call>, call: Call, left: nat, after: nat, excess: nat)
    requires forall i | 0 <= i < |calls| ::
      Outgrown(content, start, calls, i) ==> left == Unused(content, start, calls, i)
    requires left > 0 ==> exists i | 0 <= i < |calls| :: Outgrown(content, start, calls, i)
    requires after == if left == 0 then excess else left - Min(ReadLen(call), left)
    requires excess > 0 ==> left == 0
    requires var more := calls + [call];
             && Unused(content, start, more, |calls|) == excess
             && forall i | 0 <= i < |calls| ::
                  Unused(content, start, more, i) == Unused(content, start, calls, i) - ReadLen(call)
    ensures var more := calls + [call];
            && (forall i | 0 <= i < |more| ::
                  Outgrown(content, start, more, i) ==> after == Unused(content, start, more, i))
            && (after > 0 ==> exists i | 0 <= i < |more| :: Outgrown(content, start, more, i))
  {
    hide Unused, ReadLen;
    var more := calls + [call];
    forall i | 0 <= i < |calls| && Outgrown(content, start, more, i) ensures Outgrown(content, start, calls, i) {
    }
    if after > 0 {
      if left == 0 {
        assert Outgrown(content, start, more, |calls|);
      } else {
        var i :| 0 <= i < |calls| && Outgrown(content, start, calls, i);
        assert Outgrown(content, start, more, i);
      }
    }
  }

  /** One more call asks for so much more. */
  lemma OutgrownOneMore(content: seq<byte>, start: nat, calls: seq<Call>, call: Call)
    ensures var more := calls + [call];
            && Unused(content, start, more, |calls|) == Excess(Run(Open(content, start), calls).0, call)
            && forall i | 0 <= i < |calls| ::
                 Unused(content, start, more, i) == Unused(content, start, calls, i) - ReadLen(call)
  {
    BeforeOneMore(content, start, calls, call);
    var more := calls + [call];
    assert more[|calls| + 1..] == [];
    forall i | 0 <= i < |calls|
      ensures Unused(content, start, more, i) == Unused(content, start, calls, i) - ReadLen(call)
    {
      var rest := more[i + 1..];
      assert rest[..|rest| - 1] == calls[i + 1..] && rest[|rest| - 1] == call;
    }
  }

  /** A seek by nothing reports the cursor, behind whatever it drops itself. */
  lemma SeekReports(f: File, replies: seq<Reply>, p: nat)
    requires f.operation.Some? ==>
      f.operation.value.cursor == f.cursor &&
      (f.operation.value.request.ReadInto? || f.operation.value.request.Flush?)
    requires PollFile(f, Seek(Current(0)), replies).1 == Ready(Ok(At(p)))
    ensures p == f.cursor + Dropped(f, Call(Seek(Current(0)), replies))
  {
    var request, g := Seek(Current(0)), f.(leftover := []);
    if f.operation.Some? && replies != [] && !replies[0].NotReady? {
      var (g', outcome) := Settle(g, request, f.operation.value, replies[0]);
      if outcome.Ok? {
        OwnSeekReports(g', replies[1..], p);
      }
    } else {
      OwnSeekReports(g, replies, p);
    }
  }

  lemma OwnSeekReports(f: File, replies: seq<Reply>, p: nat)
    requires f.operation.None?
    ensures PollOperation(f, Seek(Current(0)), replies).1 == Ready(Ok(At(p))) ==> p == f.cursor
  {
  }

  /** `stream_position` answers with the reader's own position exactly if no flush has
      dropped bytes, neither does this seek, and no read has outgrown its reader's buffer
      by more than the reader has asked for since. */
  lemma StreamPositionIff(content: seq<byte>, start: nat, calls: seq<Call>, replies: seq<Reply>, p: nat)
    requires Streaming(calls)
    requires PollFile(Run(Open(content, start), calls).0, Seek(Current(0)), replies).1 == Ready(Ok(At(p)))
    ensures p == start + |Delivered(Run(Open(content, start), calls).1)| <==>
      && NothingDropped(content, start, calls + [Call(Seek(Current(0)), replies)])
      && (forall i | 0 <= i < |calls| :: !Outgrown(content, start, calls, i))
  {
    var seek := Call(Seek(Current(0)), replies);
    var (f, results) := Run(Open(content, start), calls);
    RunKeepsStream(content, start, calls);
    RunLoses(content, start, calls);
    LeftoverIff(content, start, calls);
    SeekReports(f, replies, p);
    DroppedOneMore(content, start, calls, seek);
    assert f.cursor == start + |Delivered(results)| + |f.leftover| + Lost(f.log);
    hide *;
  }

  lemma RunOneMore(f: File, calls: seq<Call>, call: Call)
    ensures var (f', results) := Run(f, calls);
            var (f'', result) := PollFile(f', call.request, call.replies);
            Run(f, calls + [call]) == (f'', results + [result])
  {
    hide PollFile;
    assert (calls + [call])[..|calls|] == calls;
  }

  const PENDING_READ: Call := Call(ReadInto(2), [NotReady])
  const FLUSH_OVER_IT: Call := Call(Flush, [Done(2), Done(0)])
  const READ_AGAIN: Call := Call(ReadInto(2), [Done(0)])

  lemma ReadStaysPending(f: File)
    requires f == Open([7, 8], 0)
    ensures PollFile(f, PENDING_READ.request, PENDING_READ.replies)
         == (f.(operation := Some(Operation(ReadInto(2), 0))), Pending)
  {
  }

  lemma FlushDropsRead(f: File)
    requires f == Open([7, 8], 0).(operation := Some(Operation(ReadInto(2), 0)))
    ensures var (f', result) := PollFile(f, FLUSH_OVER_IT.request, FLUSH_OVER_IT.replies);
            && result == Ready(Ok(Flushed))
            && f'.cursor == 2 && f'.operation.None? && f'.leftover == [] && f'.content == [7, 8]
  {
    assert FLUSH_OVER_IT.replies[1..] == [Done(0)];
  }

  /** It does happen: a pending read, a flush, and the bytes are gone. */
  lemma FlushBreaksStream()
    ensures var (f, results) := Run(Open([7, 8], 0), [] + [PENDING_READ] + [FLUSH_OVER_IT] + [READ_AGAIN]);
            results == [Pending, Ready(Ok(Flushed)), Ready(Ok(Bytes([])))] && f.cursor == 2
  {
    var f0 := Open([7, 8], 0);
    ReadStaysPending(f0);
    var f1 := PollFile(f0, PENDING_READ.request, PENDING_READ.replies).0;
    FlushDropsRead(f1);
    var f2 := PollFile(f1, FLUSH_OVER_IT.request, FLUSH_OVER_IT.replies).0;
    var (f3, result) := PollFile(f2, READ_AGAIN.request, READ_AGAIN.replies);
    assert f3.cursor == 2 && result == Ready(Ok(Bytes([])));
    hide PollFile;
    RunOneMore(f0, [], PENDING_READ);
    RunOneMore(f0, [] + [PENDING_READ], FLUSH_OVER_IT);
    RunOneMore(f0, [] + [PENDING_READ] + [FLUSH_OVER_IT], READ_AGAIN);
  }

  const SMALL_READ: Call := Call(ReadInto(1), [Done(2)])

  lemma SmallReadLeavesOne(f: File)
    requires f == Open([7, 8], 0).(operation := Some(Operation(ReadInto(2), 0)))
    ensures var (f', result) := PollFile(f, SMALL_READ.request, SMALL_READ.replies);
            && result == Ready(Ok(Bytes([7])))
            && f'.cursor == 2 && f'.operation.None? && f'.leftover == [8]
  {
    assert [7, 8][..2] == [7, 8] && [7, 8][..1] == [7] && [7, 8][1..] == [8];
  }

  /** A read of two bytes is pending and retried with a buffer of one: the reader has one
      byte, and is told that it stands behind the second. */
  lemma SmallReadMisplaces()
    ensures var (f, results) := Run(Open([7, 8], 0), [] + [PENDING_READ] + [SMALL_READ]);
            && results == [Pending, Ready(Ok(Bytes([7])))] && f.leftover == [8]
            && PollFile(f, Seek(Current(0)), [Done(0)]).1 == Ready(Ok(At(2)))
  {
    var f0 := Open([7, 8], 0);
    ReadStaysPending(f0);
    var f1 := PollFile(f0, PENDING_READ.request, PENDING_READ.replies).0;
    SmallReadLeavesOne(f1);
    var f2 := PollFile(f1, SMALL_READ.request, SMALL_READ.replies).0;
    OwnSeekReports(f2.(leftover := []), [Done(0)], 2);
    hide PollFile;
    RunOneMore(f0, [], PENDING_READ);
    RunOneMore(f0, [] + [PENDING_READ], SMALL_READ);
  }
}
