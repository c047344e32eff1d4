/**
 What the polled file interface promises, stated without its four polling loops.

 A file keeps at most one operation in flight. A caller may abandon a poll that was
 pending and come back with a different request, so a poll first settles whatever
 is in flight, and starts its own operation only after that.
 */
module FileIoSpec {
  import opened Common

  const CURSOR_LIMIT: int := 0x1_0000_0000_0000_0000

  datatype Error = InvalidInput | PositionOverflow | Device(code: int)

  type IoResult<+T> = Result<T, Error>

  datatype SeekFrom = Start(position: nat) | End(offset: int) | Current(offset: int)

  /** What a caller asks for in one poll. */
  datatype Request =
    | ReadInto(len: nat)
    | Write(bytes: seq<byte>)
    | Flush
    | Seek(target: SeekFrom)

  datatype Output = Bytes(data: seq<byte>) | Count(written: nat) | Flushed | At(position: nat)

  /** An operation in flight; it works from the cursor it captured when it started. */
  datatype Operation = Operation(request: Request, cursor: nat)

  /** How the device answers when an operation is polled: not yet, with the transfer
      of up to `most` bytes, or with an error. */
  datatype Reply = NotReady | Done(most: nat) | Fail(error: Error)

  /** An operation that has come to its end, and the request that was polled then. */
  datatype Entry = Entry(polled: Request, op: Operation, outcome: IoResult<Output>)

  datatype File = File(
    content: seq<byte>,
    cursor: nat,
    operation: Option<Operation>,
    leftover: seq<byte>,  // bytes read from the file but not yet delivered
    log: seq<Entry>)      // every operation observed to end, in order

  // ----- Operations -----

  /** `seek_position`: the new position in exact arithmetic, if it fits. */
  function SeekPosition(current: nat, end: nat, target: SeekFrom): IoResult<nat> {
    match target
    case Start(p) => Ok(p)
    case End(o) => if 0 <= end + o < CURSOR_LIMIT then Ok(end + o) else Err(InvalidInput)
    case Current(o) => if 0 <= current + o < CURSOR_LIMIT then Ok(current + o) else Err(InvalidInput)
  }

  /** A read moves at least one byte if it can move any. */
  function Transfer(most: nat, possible: nat): (n: nat)
    ensures n <= possible && (possible > 0 ==> n > 0)
  {
    if possible == 0 then 0 else if most == 0 then 1 else Min(most, possible)
  }

  function Remaining(content: seq<byte>, cursor: nat): nat {
    if cursor < |content| then |content| - cursor else 0
  }

  function ReadAt(content: seq<byte>, cursor: nat, n: nat): (data: seq<byte>)
    requires n <= Remaining(content, cursor)
    ensures |data| == n
  {
    if n == 0 then [] else content[cursor..cursor + n]
  }

  /** Writing beyond the end fills the gap with zeros. */
  function WriteAt(content: seq<byte>, cursor: nat, data: seq<byte>): (after: seq<byte>)
    ensures data != [] ==> |after| >= cursor + |data| && after[cursor..cursor + |data|] == data
    ensures forall i | 0 <= i < |content| && !(cursor <= i < cursor + |data|) ::
              i < |after| && after[i] == content[i]
  {
    if data == [] then content
    else
      var padded := if cursor <= |content| then content else content + seq(cursor - |content|, _ => 0);
      var end := cursor + |data|;
      padded[..cursor] + data + (if end <= |padded| then padded[end..] else [])
  }

  /** The outcome of an operation, and the contents it leaves. */
  function Perform(content: seq<byte>, op: Operation, reply: Reply): (IoResult<Output>, seq<byte>)
    requires !reply.NotReady?
  {
    match op.request
    case ReadInto(len) =>
      if reply.Fail? then (Err(reply.error), content)
      else
        var n := Transfer(reply.most, Min(len, Remaining(content, op.cursor)));
        if op.cursor + n < CURSOR_LIMIT then (Ok(Bytes(ReadAt(content, op.cursor, n))), content)
        else (Err(PositionOverflow), content)
    case Write(bytes) =>
      if reply.Fail? then (Err(reply.error), content)
      else
        var n := Min(reply.most, |bytes|);
        (if op.cursor + n < CURSOR_LIMIT then Ok(Count(n)) else Err(PositionOverflow),
         WriteAt(content, op.cursor, bytes[..n]))
    case Flush => (if reply.Fail? then Err(reply.error) else Ok(Flushed), content)
    case Seek(target) =>
      if reply.Fail? && target.End? then (Err(reply.error), content)
      else
        match SeekPosition(op.cursor, |content|, target)
        case Ok(p) => (Ok(At(p)), content)
        case Err(e) => (Err(e), content)
  }

  /** Where a successful operation leaves the cursor; a failed one does not move it. */
  function CursorAfter(cursor: nat, outcome: IoResult<Output>): nat {
    match outcome
    case Ok(Bytes(data)) => cursor + |data|
    case Ok(Count(n)) => cursor + n
    case Ok(At(p)) => p
    case _ => cursor
  }

  /** The operation in flight ends. */
  function Settle(f: File, polled: Request, op: Operation, reply: Reply): (File, IoResult<Output>)
    requires !reply.NotReady?
  {
    var (outcome, content) := Perform(f.content, op, reply);
    (f.(content := content, operation := None, log := f.log + [Entry(polled, op, outcome)],
        cursor := if outcome.Ok? && !outcome.value.Flushed? then CursorAfter(op.cursor, outcome) else f.cursor),
     outcome)
  }

  // ----- Polls -----

  /** Whether the end of `op` answers `request`, whoever started it: any read answers
      a read, but a write must carry the same bytes and a seek the same target. */
  predicate Answers(request: Request, op: Operation) {
    if request.ReadInto? then op.request.ReadInto? else op.request == request
  }

  /** The answer to a request from the outcome of an operation that answers it; a
      reader with a smaller buffer leaves the rest for later. */
  function Answer(f: File, request: Request, outcome: IoResult<Output>): (File, IoResult<Output>) {
    match (request, outcome)
    case (ReadInto(len), Ok(Bytes(data))) =>
      var n := Min(len, |data|);
      (if n < |data| then f.(leftover := data[n..]) else f, Ok(Bytes(data[..n])))
    case _ => (f, outcome)
  }

  /** One poll, with the device's replies to the operations it polls in turn: settle
      what is in flight, fail if that failed, and go on to the request itself. */
  function PollOperation(f: File, request: Request, replies: seq<Reply>): (File, Poll<IoResult<Output>>)
    decreases |replies|
  {
    var op := if f.operation.Some? then f.operation.value else Operation(request, f.cursor);
    if replies == [] || replies[0].NotReady? then (f.(operation := Some(op)), Pending)
    else
      var (f', outcome) := Settle(f, request, op, replies[0]);
      if Answers(request, op) then
        var (f'', answer) := Answer(f', request, outcome);
        (f'', Ready(answer))
      else if outcome.Err? then (f', Ready(outcome))
      else PollOperation(f', request, replies[1..])
  }

  /** A poll as the caller makes it: empty buffers and leftover bytes come first, and
      a write or seek gives up what was left over. */
  function PollFile(f: File, request: Request, replies: seq<Reply>): (File, Poll<IoResult<Output>>) {
    match request
    case ReadInto(len) =>
      if len == 0 then (f, Ready(Ok(Bytes([]))))
      else if f.leftover != [] then
        var n := Min(len, |f.leftover|);
        (f.(leftover := f.leftover[n..]), Ready(Ok(Bytes(f.leftover[..n]))))
      else PollOperation(f, request, replies)
    case Write(bytes) =>
      if bytes == [] then (f, Ready(Ok(Count(0))))
      else PollOperation(f.(leftover := []), request, replies)
    case Flush => PollOperation(f, request, replies)
    case Seek(_) => PollOperation(f.(leftover := []), request, replies)
  }

  /** A caller's use of the file: requests, each with the device's replies. */
  datatype Call = Call(request: Request, replies: seq<Reply>)

  function Run(f: File, calls: seq<Call>): (File, seq<Poll<IoResult<Output>>>)
    decreases |calls|
  {
    if calls == [] then (f, [])
    else
      var (f', results) := Run(f, calls[..|calls| - 1]);
      var (f'', result) := PollFile(f', calls[|calls| - 1].request, calls[|calls| - 1].replies);
      (f'', results + [result])
  }

  function Open(content: seq<byte>, cursor: nat): File {
    File(content, cursor, None, [], [])
  }
}
