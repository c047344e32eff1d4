/**
 What seeks, reads and writes mean for the bytes of the file, said without the
 functions that compute them, and what that gives over whole runs of polls.
 */
module FileIoDevice {
  import opened Common
  import opened FileIoSpec
  import opened FileIoLaws

  /** Nothing is in flight and the poll gets its operation done. */
  ghost predicate Ends(f: File, replies: seq<Reply>) {
    f.operation.None? && replies != [] && !replies[0].NotReady?
  }

  /** A seek moves the cursor to its target, and answers with it. */
  ghost predicate SeeksTo(f: File, target: SeekFrom, replies: seq<Reply>, position: int) {
    var (f', result) := PollFile(f, Seek(target), replies);
    f'.cursor == position >= 0 && result == Ready(Ok(At(position)))
  }

  /** A seek fails and leaves the cursor alone. */
  ghost predicate SeekFails(f: File, target: SeekFrom, replies: seq<Reply>, error: Error) {
    var (f', result) := PollFile(f, Seek(target), replies);
    f'.cursor == f.cursor && result == Ready(Err(error))
  }

  /** Seeks from the start, from the end of the contents and from the cursor; positions
      are 64 bits wide. Only a seek from the end asks the device. */
  lemma SeekAnswers(f: File, replies: seq<Reply>, position: nat, offset: int)
    requires Ends(f, replies)
    ensures SeeksTo(f, Start(position), replies, position)
    ensures if 0 <= f.cursor + offset < 0x1_0000_0000_0000_0000
            then SeeksTo(f, Current(offset), replies, f.cursor + offset)
            else SeekFails(f, Current(offset), replies, InvalidInput)
    ensures replies[0].Done? ==>
            if 0 <= |f.content| + offset < 0x1_0000_0000_0000_0000
            then SeeksTo(f, End(offset), replies, |f.content| + offset)
            else SeekFails(f, End(offset), replies, InvalidInput)
    ensures replies[0].Fail? ==> SeekFails(f, End(offset), replies, replies[0].error)
  {
  }

  /** A seek that ends leaves the contents alone and nothing behind. */
  lemma SeekLeaves(f: File, target: SeekFrom, replies: seq<Reply>)
    requires Ends(f, replies)
    ensures var f' := PollFile(f, Seek(target), replies).0;
            f'.content == f.content && f'.operation.None? && f'.leftover == []
  {
  }

  /** A read delivers the bytes from the cursor on, at least one unless there is none,
      and moves the cursor behind them. */
  lemma ReadAnswers(f: File, len: nat, replies: seq<Reply>, most: nat)
    requires Ends(f, replies) && f.leftover == [] && len > 0 && replies[0] == Done(most)
    requires f.cursor + len < CURSOR_LIMIT
    ensures var (f', result) := PollFile(f, ReadInto(len), replies);
            && result.Ready? && result.result.Ok? && result.result.value.Bytes?
            && var data := result.result.value.data;
            && |data| <= len && (data == [] <==> f.cursor >= |f.content|)
            && (data != [] ==> f.cursor + |data| <= |f.content| && data == f.content[f.cursor..f.cursor + |data|])
            && (most >= len && f.cursor + len <= |f.content| ==> |data| == len)
            && f' == f.(cursor := f.cursor + |data|, log := f'.log)
  {
    if f.cursor < |f.content| {
      var n := Transfer(most, Min(len, |f.content| - f.cursor));
      var data := f.content[f.cursor..f.cursor + n];
      assert data[..|data|] == data;
    }
  }

  /** A write puts the bytes that the device accepts at the cursor, over what was there,
      behind zeros if the cursor is beyond the end, and moves the cursor behind them. */
  lemma WriteAnswers(f: File, bytes: seq<byte>, replies: seq<Reply>, most: nat)
    requires Ends(f, replies) && bytes != [] && replies[0] == Done(most)
    requires f.cursor + |bytes| < CURSOR_LIMIT
    ensures var (f', result) := PollFile(f, Write(bytes), replies);
            && result.Ready? && result.result.Ok? && result.result.value.Count?
            && var n := result.result.value.written;
            && (n <= |bytes| && n <= most && (n == |bytes| || n == most))
            && f'.cursor == f.cursor + n && f'.operation.None? && f'.leftover == []
            && Overwrites(f.content, f.cursor, bytes[..n], f'.content)
  {
    var n := Min(most, |bytes|);
    WriteOverwrites(f.content, f.cursor, bytes[..n]);
  }

  /** `after` holds `data` at `cursor`, and elsewhere what `before` holds, or zeros. */
  ghost predicate Overwrites(before: seq<byte>, cursor: nat, data: seq<byte>, after: seq<byte>) {
    if data == [] then after == before
    else
      && |after| == (if cursor + |data| > |before| then cursor + |data| else |before|)
      && after[cursor..cursor + |data|] == data
      && forall i | 0 <= i < |after| && !(cursor <= i < cursor + |data|) ::
           after[i] == if i < |before| then before[i] else 0
  }

  lemma WriteOverwrites(content: seq<byte>, cursor: nat, data: seq<byte>)
    ensures Overwrites(content, cursor, data, WriteAt(content, cursor, data))
  {
  }

  // ----- Over runs -----

  ghost predicate Idle(f: File) {
    f.operation.None?
  }

  lemma RunTwoMore(f: File, calls: seq<Call>, a: Call, b: Call)
    ensures var (f0, results) := Run(f, calls);
            var (f1, first) := PollFile(f0, a.request, a.replies);
            var (f2, second) := PollFile(f1, b.request, b.replies);
            Run(f, calls + [a] + [b]) == (f2, results + [first] + [second])
  {
    hide PollFile;
    RunOneMore(f, calls, a);
    RunOneMore(f, calls + [a], b);
  }

  /** Seeking to the end and writing appends, after any run that leaves nothing in
      flight; seeking there again finds nothing to read. */
  lemma WritesAtEndAppend(content: seq<byte>, start: nat, calls: seq<Call>, bytes: seq<byte>, most: nat, len: nat)
    requires Idle(Run(Open(content, start), calls).0)
    requires bytes != [] && most >= |bytes| && len > 0
    requires |Run(Open(content, start), calls).0.content| + |bytes| + len < CURSOR_LIMIT
    ensures var f := Run(Open(content, start), calls).0;
            var written := calls + [Call(Seek(End(0)), [Done(0)])] + [Call(Write(bytes), [Done(most)])];
            var read := written + [Call(Seek(End(0)), [Done(0)])] + [Call(ReadInto(len), [Done(len)])];
            var (f', results) := Run(Open(content, start), written);
            && f'.content == f.content + bytes && results[|results| - 1] == Ready(Ok(Count(|bytes|)))
            && var (f'', more) := Run(Open(content, start), read);
            && f''.content == f'.content && more[|more| - 1] == Ready(Ok(Bytes([])))
  {
    var f := Run(Open(content, start), calls).0;
    var seek, write := Call(Seek(End(0)), [Done(0)]), Call(Write(bytes), [Done(most)]);
    var read := Call(ReadInto(len), [Done(len)]);
    RunTwoMore(Open(content, start), calls, seek, write);
    RunTwoMore(Open(content, start), calls + [seek] + [write], seek, read);
    SeekAnswers(f, seek.replies, 0, 0);
    SeekLeaves(f, End(0), seek.replies);
    var f1 := PollFile(f, seek.request, seek.replies).0;
    WriteAnswers(f1, bytes, write.replies, most);
    var f2 := PollFile(f1, write.request, write.replies).0;
    hide PollFile, Run;
    assert bytes[..|bytes|] == bytes;
    Appended(f.content, bytes, f2.content);
    SeekAnswers(f2, seek.replies, 0, 0);
    SeekLeaves(f2, End(0), seek.replies);
    var f3 := PollFile(f2, seek.request, seek.replies).0;
    ReadAnswers(f3, len, read.replies, len);
  }

  lemma Appended(before: seq<byte>, data: seq<byte>, after: seq<byte>)
    requires data != [] && Overwrites(before, |before|, data, after)
    ensures after == before + data
  {
    assert after == after[..|before|] + after[|before|..];
    assert after[|before|..|before| + |data|] == after[|before|..];
  }

  /** What was written at a position is read back there, after any run that leaves
      nothing in flight. */
  lemma WritesAreReadBack(content: seq<byte>, start: nat, calls: seq<Call>, p: nat, bytes: seq<byte>, most: nat)
    requires Idle(Run(Open(content, start), calls).0)
    requires bytes != [] && most >= |bytes| && p + |bytes| < CURSOR_LIMIT
    ensures var written := calls + [Call(Seek(Start(p)), [Done(0)])] + [Call(Write(bytes), [Done(most)])];
            var read := written + [Call(Seek(Start(p)), [Done(0)])] + [Call(ReadInto(|bytes|), [Done(most)])];
            var results := Run(Open(content, start), read).1;
            results[|results| - 1] == Ready(Ok(Bytes(bytes)))
  {
    var f := Run(Open(content, start), calls).0;
    var seek, write := Call(Seek(Start(p)), [Done(0)]), Call(Write(bytes), [Done(most)]);
    var read := Call(ReadInto(|bytes|), [Done(most)]);
    RunTwoMore(Open(content, start), calls, seek, write);
    RunTwoMore(Open(content, start), calls + [seek] + [write], seek, read);
    SeekAnswers(f, seek.replies, p, 0);
    SeekLeaves(f, Start(p), seek.replies);
    var f1 := PollFile(f, seek.request, seek.replies).0;
    WriteAnswers(f1, bytes, write.replies, most);
    var f2 := PollFile(f1, write.request, write.replies).0;
    hide PollFile, Run;
    assert bytes[..|bytes|] == bytes;
    SeekAnswers(f2, seek.replies, p, 0);
    SeekLeaves(f2, Start(p), seek.replies);
    var f3 := PollFile(f2, seek.request, seek.replies).0;
    ReadAnswers(f3, |bytes|, read.replies, most);
  }
}
