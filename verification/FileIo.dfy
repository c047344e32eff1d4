/**
 The polled file interface over a Compio file, in the form the source gives it: one
 boxed operation, a vector of leftover bytes with an index into it, and a polling
 loop for each kind of request. Each entry point is proved to do what `PollFile`
 says.
 */
module FileIo {
  import opened Common
  import opened FileIoSpec

  /** The output of a boxed operation. */
  datatype IoOutput =
    | ReadOutput(read: IoResult<nat>, buffer: seq<byte>, position: Option<nat>)
    | WriteOutput(written: IoResult<nat>, bytes: seq<byte>, position: Option<nat>)
    | FlushOutput(flushed: IoResult<Output>)
    | SeekOutput(requested: SeekFrom, reached: IoResult<nat>)

  /** What the outputs of the four kinds of operation stand for. */
  ghost predicate Means(output: IoOutput, op: Operation, outcome: IoResult<Output>) {
    match op.request
    case ReadInto(len) =>
      && output.ReadOutput? && (outcome.Ok? ==> outcome.value.Bytes?)
      && (if outcome.Ok? then
            var data := outcome.value.data;
            && |data| <= |output.buffer| && output.buffer[..|data|] == data
            && output.read == Ok(|data|) && output.position == Some(op.cursor + |data|)
          else output.read == Err(outcome.error) && output.position == None)
    case Write(bytes) =>
      && output.WriteOutput? && output.bytes == bytes && (outcome.Ok? ==> outcome.value.Count?)
      && (if outcome.Ok? then
            output.written == Ok(outcome.value.written) && output.position == Some(op.cursor + outcome.value.written)
          else output.written == Err(outcome.error) && output.position == None)
    case Flush => output == FlushOutput(outcome) && (outcome.Ok? ==> outcome.value.Flushed?)
    case Seek(target) =>
      && output.SeekOutput? && output.requested == target && (outcome.Ok? ==> outcome.value.At?)
      && output.reached == (if outcome.Ok? then Ok(outcome.value.position) else Err(outcome.error))
  }

  /** A request starts its operation when none is in flight. */
  lemma Starts(f: File, request: Request, replies: seq<Reply>)
    requires f.operation.None?
    ensures PollOperation(f, request, replies)
         == PollOperation(f.(operation := Some(Operation(request, f.cursor))), request, replies)
  {
  }

  /** What a poll makes of the next reply to the operation in flight. */
  lemma Continues(f: File, request: Request, replies: seq<Reply>, k: nat)
    requires f.operation.Some? && k <= |replies|
    ensures k == |replies| || replies[k].NotReady? ==>
      PollOperation(f, request, replies[k..]) == (f, Pending)
    ensures k < |replies| && !replies[k].NotReady? ==>
      var op := f.operation.value;
      var (f', outcome) := Settle(f, request, op, replies[k]);
      PollOperation(f, request, replies[k..]) ==
        if Answers(request, op) then
          var (f'', answer) := Answer(f', request, outcome);
          (f'', Ready(answer))
        else if outcome.Err? then (f', Ready(outcome))
        else PollOperation(f', request, replies[k + 1..])
  {
    if k < |replies| {
      assert replies[k..][0] == replies[k] && replies[k..][1..] == replies[k + 1..];
    }
  }

  class CompioFile {
    var content: seq<byte>  // what the device holds
    var position: nat
    var operation: Option<Operation>
    var bufferedRead: seq<byte>
    var bufferedReadPosition: nat
    ghost var log: seq<Entry>

    ghost predicate Valid()
      reads this
    {
      bufferedReadPosition < |bufferedRead| || (bufferedRead == [] && bufferedReadPosition == 0)
    }

    ghost function State(): File
      reads this
      requires Valid()
    {
      File(content, position, operation, bufferedRead[bufferedReadPosition..], log)
    }

    constructor (content: seq<byte>, position: nat)
      ensures Valid() && State() == Open(content, position)
    {
      this.content, this.position := content, position;
      operation, bufferedRead, bufferedReadPosition, log := None, [], 0, [];
    }

    /** `CompioFile::read` on the operation's own copy of the file. */
    method ReadOperation(cursor: nat, capacity: nat, reply: Reply) returns (output: IoOutput)
      requires !reply.NotReady?
      ensures var op := Operation(ReadInto(capacity), cursor);
              Means(output, op, Perform(content, op, reply).0) && Perform(content, op, reply).1 == content
    {
      if reply.Fail? {
        return ReadOutput(Err(reply.error), [], None);
      }
      var read := Transfer(reply.most, Min(capacity, Remaining(content, cursor)));
      var data := ReadAt(content, cursor, read);
      var buffer := data + seq(capacity - read, _ => 0);
      if cursor + read >= CURSOR_LIMIT {
        return ReadOutput(Err(PositionOverflow), buffer, None);
      }
      assert buffer[..read] == data;
      return ReadOutput(Ok(read), buffer, Some(cursor + read));
    }

    /** `CompioFile::write`; what reached the device stays there even if the position
        then overflows. */
    method WriteOperation(cursor: nat, bytes: seq<byte>, reply: Reply) returns (output: IoOutput)
      requires !reply.NotReady?
      modifies this`content
      ensures var op := Operation(Write(bytes), cursor);
              Means(output, op, Perform(old(content), op, reply).0) && content == Perform(old(content), op, reply).1
    {
      if reply.Fail? {
        return WriteOutput(Err(reply.error), bytes, None);
      }
      var written := Min(reply.most, |bytes|);
      content := WriteAt(content, cursor, bytes[..written]);
      if cursor + written >= CURSOR_LIMIT {
        return WriteOutput(Err(PositionOverflow), bytes, None);
      }
      return WriteOutput(Ok(written), bytes, Some(cursor + written));
    }

    /** `CompioFile::seek`; only a seek from the end asks the device for the length. */
    method SeekOperation(cursor: nat, target: SeekFrom, reply: Reply) returns (output: IoOutput)
      requires !reply.NotReady?
      ensures var op := Operation(Seek(target), cursor);
              Means(output, op, Perform(content, op, reply).0) && Perform(content, op, reply).1 == content
    {
      var end := 0;
      if target.End? {
        if reply.Fail? {
          return SeekOutput(target, Err(reply.error));
        }
        end := |content|;
      }
      return SeekOutput(target, SeekPosition(cursor, end, target));
    }

    /** `poll_operation`: polls what is in flight and clears it once it is ready. */
    method PollInFlight(ghost polled: Request, reply: Reply) returns (poll: Poll<IoOutput>)
      requires Valid() && operation.Some?
      modifies this`content, this`operation, this`log
      ensures reply.NotReady? ==> poll.Pending? && unchanged(this)
      ensures !reply.NotReady? ==>
                var op := old(operation).value;
                var (outcome, after) := Perform(old(content), op, reply);
                && poll.Ready? && Means(poll.result, op, outcome)
                && operation == None && content == after && log == old(log) + [Entry(polled, op, outcome)]
    {
      if reply.NotReady? {
        return Pending;
      }
      var op := operation.value;
      ghost var outcome := Perform(content, op, reply).0;
      var output;
      match op.request {
        case ReadInto(capacity) => output := ReadOperation(op.cursor, capacity, reply);
        case Write(bytes) => output := WriteOperation(op.cursor, bytes, reply);
        case Flush => output := FlushOutput(if reply.Fail? then Err(reply.error) else Ok(Flushed));
        case Seek(target) => output := SeekOperation(op.cursor, target, reply);
      }
      operation := None;
      log := log + [Entry(polled, op, outcome)];
      return Ready(output);
    }

    method ApplyPosition(moved: Option<nat>)
      modifies this`position
      ensures position == if moved.Some? then moved.value else old(position)
    {
      if moved.Some? {
        position := moved.value;
      }
    }

    /** `finish_discarded`: the cursor moves, the data is dropped, an error remains. */
    method FinishDiscarded(output: IoOutput, ghost op: Operation, ghost outcome: IoResult<Output>)
        returns (error: Option<Error>)
      requires Means(output, op, outcome)
      modifies this`position
      ensures position ==
        if outcome.Ok? && !outcome.value.Flushed? then CursorAfter(op.cursor, outcome) else old(position)
      ensures error == if outcome.Err? then Some(outcome.error) else None
    {
      match output
      case ReadOutput(result, _, moved) =>
        ApplyPosition(moved);
        return if result.Err? then Some(result.error) else None;
      case WriteOutput(result, _, moved) =>
        ApplyPosition(moved);
        return if result.Err? then Some(result.error) else None;
      case FlushOutput(result) => return if result.Err? then Some(result.error) else None;
      case SeekOutput(_, result) =>
        if result.Ok? {
          ApplyPosition(Some(result.value));
          return None;
        }
        return Some(result.error);
    }

    /** A read has ended: hand over what fits and keep the rest. */
    method DeliverRead(buffer: array<byte>, read: nat, owned: seq<byte>)
        returns (copied: nat)
      requires Valid() && bufferedRead == [] && read <= |owned|  // the source checks the length at run time
      modifies this`bufferedRead, this`bufferedReadPosition, buffer
      ensures Valid() && copied <= buffer.Length && buffer[copied..] == old(buffer[copied..])
      ensures Answer(old(State()), ReadInto(buffer.Length), Ok(Bytes(owned[..read])))
           == (State(), Ok(Bytes(buffer[..copied])))
    {
      var data := owned[..read];
      copied := Min(buffer.Length, read);
      forall i | 0 <= i < copied {
        buffer[i] := data[i];
      }
      if copied < read {
        bufferedRead, bufferedReadPosition := data, copied;
      }
      assert buffer[..copied] == data[..copied];
    }

    /** `poll_internal_read`. */
    method PollInternalRead(buffer: array<byte>, replies: seq<Reply>) returns (poll: Poll<IoResult<nat>>)
      requires Valid() && bufferedRead == []
      modifies this, buffer
      ensures Valid()
      ensures ReadOutcome(buffer[..], old(buffer[..]), poll, State(),
                          PollOperation(old(State()), ReadInto(buffer.Length), replies))
    {
      hide Perform, PollOperation;
      ghost var request := ReadInto(buffer.Length);
      var k := 0;
      while true
        invariant k <= |replies|
        invariant Valid() && bufferedRead == [] && buffer[..] == old(buffer[..])
        invariant PollOperation(State(), request, replies[k..]) == PollOperation(old(State()), request, replies)
        decreases |replies| - k
      {
        if operation.None? {
          Starts(State(), request, replies[k..]);
          operation := Some(Operation(ReadInto(buffer.Length), position));
        }
        ghost var before, op := State(), operation.value;
        Continues(before, request, replies, k);
        if k == |replies| {
          return Pending;
        }
        var polled := PollInFlight(request, replies[k]);
        if polled.Pending? {
          return Pending;
        }
        ghost var (after, outcome) := Settle(before, request, op, replies[k]);
        k := k + 1;
        match polled.result
        case ReadOutput(result, owned, moved) =>
          ApplyPosition(moved);
          assert State() == after;
          if result.Err? {
            return Ready(Err(result.error));
          }
          assert outcome == Ok(Bytes(owned[..result.value]));
          hide Settle, Means;
          var copied := DeliverRead(buffer, result.value, owned);
          return Ready(Ok(copied));
        case output =>
          var error := FinishDiscarded(output, op, outcome);
          assert State() == after;
          if error.Some? {
            return Ready(Err(error.value));
          }
      }
    }

    /** `poll_internal_write`: an abandoned write of other bytes counts for nothing. */
    method PollInternalWrite(bytes: seq<byte>, replies: seq<Reply>) returns (poll: Poll<IoResult<nat>>)
      requires Valid()
      modifies this
      ensures Valid()
      ensures PollOperation(old(State()), Write(bytes), replies) == (State(), CountOf(poll))
    {
      hide Perform, PollOperation;
      ghost var request := Write(bytes);
      var k := 0;
      while true
        invariant k <= |replies| && Valid()
        invariant PollOperation(State(), request, replies[k..]) == PollOperation(old(State()), request, replies)
        decreases |replies| - k
      {
        if operation.None? {
          Starts(State(), request, replies[k..]);
          operation := Some(Operation(Write(bytes), position));
        }
        ghost var before, op := State(), operation.value;
        Continues(before, request, replies, k);
        if k == |replies| {
          return Pending;
        }
        var polled := PollInFlight(request, replies[k]);
        if polled.Pending? {
          return Pending;
        }
        ghost var (after, outcome) := Settle(before, request, op, replies[k]);
        k := k + 1;
        match polled.result
        case WriteOutput(result, written, moved) =>
          ApplyPosition(moved);
          assert State() == after;
          if written == bytes {
            return Ready(result);
          }
          if result.Err? {
            return Ready(result);
          }
        case output =>
          var error := FinishDiscarded(output, op, outcome);
          assert State() == after;
          if error.Some? {
            return Ready(Err(error.value));
          }
      }
    }

    /** `poll_internal_flush`. */
    method PollInternalFlush(replies: seq<Reply>) returns (poll: Poll<IoResult<Output>>)
      requires Valid()
      modifies this
      ensures Valid()
      ensures PollOperation(old(State()), Flush, replies) == (State(), poll)
    {
      hide Perform, PollOperation;
      ghost var request := Flush;
      var k := 0;
      while true
        invariant k <= |replies| && Valid()
        invariant PollOperation(State(), request, replies[k..]) == PollOperation(old(State()), request, replies)
        decreases |replies| - k
      {
        if operation.None? {
          Starts(State(), request, replies[k..]);
          operation := Some(Operation(Flush, position));
        }
        ghost var before, op := State(), operation.value;
        Continues(before, request, replies, k);
        if k == |replies| {
          return Pending;
        }
        var polled := PollInFlight(request, replies[k]);
        if polled.Pending? {
          return Pending;
        }
        ghost var (after, outcome) := Settle(before, request, op, replies[k]);
        k := k + 1;
        match polled.result
        case FlushOutput(result) =>
          assert State() == after;
          return Ready(result);
        case output =>
          var error := FinishDiscarded(output, op, outcome);
          assert State() == after;
          if error.Some? {
            return Ready(Err(error.value));
          }
      }
    }

    /** `poll_internal_seek`: a failed seek is reported whoever asked for it. */
    method PollInternalSeek(target: SeekFrom, replies: seq<Reply>) returns (poll: Poll<IoResult<nat>>)
      requires Valid()
      modifies this
      ensures Valid()
      ensures PollOperation(old(State()), Seek(target), replies) == (State(), PositionOf(poll))
    {
      hide Perform, PollOperation;
      ghost var request := Seek(target);
      var k := 0;
      while true
        invariant k <= |replies| && Valid()
        invariant PollOperation(State(), request, replies[k..]) == PollOperation(old(State()), request, replies)
        decreases |replies| - k
      {
        if operation.None? {
          Starts(State(), request, replies[k..]);
          operation := Some(Operation(Seek(target), position));
        }
        ghost var before, op := State(), operation.value;
        Continues(before, request, replies, k);
        if k == |replies| {
          return Pending;
        }
        var polled := PollInFlight(request, replies[k]);
        if polled.Pending? {
          return Pending;
        }
        ghost var (after, outcome) := Settle(before, request, op, replies[k]);
        k := k + 1;
        match polled.result
        case SeekOutput(requested, result) =>
          if result.Ok? {
            ApplyPosition(Some(result.value));
          }
          assert State() == after;
          if result.Err? {
            return Ready(result);
          }
          if requested == target {
            return Ready(result);
          }
        case output =>
          var error := FinishDiscarded(output, op, outcome);
          assert State() == after;
          if error.Some? {
            return Ready(Err(error.value));
          }
      }
    }

    // ----- The entry points -----

    /** `poll_read`. */
    method PollRead(buffer: array<byte>, replies: seq<Reply>) returns (poll: Poll<IoResult<nat>>)
      requires Valid()
      modifies this, buffer
      ensures Valid()
      ensures ReadOutcome(buffer[..], old(buffer[..]), poll, State(),
                          PollFile(old(State()), ReadInto(buffer.Length), replies))
    {
      if buffer.Length == 0 {
        return Ready(Ok(0));
      }
      if bufferedReadPosition < |bufferedRead| {
        var available := bufferedRead[bufferedReadPosition..];
        var read := Min(buffer.Length, |available|);
        forall i | 0 <= i < read {
          buffer[i] := available[i];
        }
        bufferedReadPosition := bufferedReadPosition + read;
        if bufferedReadPosition == |bufferedRead| {
          bufferedRead, bufferedReadPosition := [], 0;
        }
        assert buffer[..read] == available[..read];
        return Ready(Ok(read));
      }
      poll := PollInternalRead(buffer, replies);
    }

    /** `poll_write`. */
    method PollWrite(bytes: seq<byte>, replies: seq<Reply>) returns (poll: Poll<IoResult<nat>>)
      requires Valid()
      modifies this
      ensures Valid()
      ensures PollFile(old(State()), Write(bytes), replies) == (State(), CountOf(poll))
    {
      if bytes == [] {
        return Ready(Ok(0));
      }
      bufferedRead, bufferedReadPosition := [], 0;
      poll := PollInternalWrite(bytes, replies);
    }

    /** `poll_flush`. */
    method PollFlush(replies: seq<Reply>) returns (poll: Poll<IoResult<Output>>)
      requires Valid()
      modifies this
      ensures Valid()
      ensures PollFile(old(State()), Flush, replies) == (State(), poll)
    {
      poll := PollInternalFlush(replies);
    }

    /** `poll_seek`. */
    method PollSeek(target: SeekFrom, replies: seq<Reply>) returns (poll: Poll<IoResult<nat>>)
      requires Valid()
      modifies this
      ensures Valid()
      ensures PollFile(old(State()), Seek(target), replies) == (State(), PositionOf(poll))
    {
      bufferedRead, bufferedReadPosition := [], 0;
      poll := PollInternalSeek(target, replies);
    }
  }

  function CountOf(poll: Poll<IoResult<nat>>): Poll<IoResult<Output>> {
    match poll
    case Pending => Pending
    case Ready(Ok(n)) => Ready(Ok(Count(n)))
    case Ready(Err(e)) => Ready(Err(e))
  }

  function PositionOf(poll: Poll<IoResult<nat>>): Poll<IoResult<Output>> {
    match poll
    case Pending => Pending
    case Ready(Ok(p)) => Ready(Ok(At(p)))
    case Ready(Err(e)) => Ready(Err(e))
  }

  /** What a reading poll means for the caller's buffer. */
  ghost predicate ReadOutcome(buffer: seq<byte>, buffer0: seq<byte>, poll: Poll<IoResult<nat>>,
                              after: File, expected: (File, Poll<IoResult<Output>>))
  {
    && expected.0 == after
    && |buffer| == |buffer0|
    && match poll
       case Pending => expected.1 == Pending && buffer == buffer0
       case Ready(Err(e)) => expected.1 == Ready(Err(e)) && buffer == buffer0
       case Ready(Ok(n)) =>
         n <= |buffer| && expected.1 == Ready(Ok(Bytes(buffer[..n]))) && buffer[n..] == buffer0[n..]
  }
}
