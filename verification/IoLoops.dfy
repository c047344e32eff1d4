/**
 The loops that `FileRead` and `FileWrite` provide on top of a single `read` or
 `write`: `read_exact`, `read_to_end`, `read_to_string` and `write_all`.

 A source or a sink is driven by a finite plan that says how each of its next
 calls ends; when the plan is used up, calls move as many bytes as they can. The
 plan is arbitrary, so a loop is proved against every pattern of short
 transfers, interruptions and failures.
 */
module IoLoops {
  import opened Common

  type Positive = n: nat | n > 0 witness 1

  const CHUNK: nat := 8 * 1024

  datatype Error = UnexpectedEof | WriteZero | InvalidData | Interrupted | Device(code: nat)

  type IoResult<+T> = Result<T, Error>

  /** How one call ends: it moves at most `count` bytes, it moves none, it is
      interrupted, or it fails. */
  datatype Attempt = Moves(count: Positive) | Stuck | Interrupt | Fails(code: nat)

  /** How one call ends that has room for `room` bytes of the `available` ones. */
  function Reply(plan: seq<Attempt>, room: nat, available: nat): IoResult<nat> {
    var most := Min(room, available);
    if plan == [] then Ok(most) else
    match plan[0]
    case Moves(count) => Ok(Min(most, count))
    case Stuck => Ok(0)
    case Interrupt => Err(Interrupted)
    case Fails(code) => Err(Device(code))
  }

  function Later(plan: seq<Attempt>): seq<Attempt> {
    if plan == [] then [] else plan[1..]
  }

  /** The plan moves `need` bytes before a call fails or gets stuck. */
  ghost predicate Grants(plan: seq<Attempt>, need: nat) {
    need == 0 || plan == [] ||
    match plan[0]
    case Moves(count) => Grants(plan[1..], need - Min(need, count))
    case Interrupt => Grants(plan[1..], need)
    case Stuck => false
    case Fails(_) => false
  }

  /** The most bytes that the calls of a plan move. */
  ghost function Capacity(plan: seq<Attempt>): nat {
    if plan == [] then 0
    else (if plan[0].Moves? then plan[0].count else 0) + Capacity(plan[1..])
  }

  /** No call of the plan fails or gets stuck. */
  ghost predicate Clean(plan: seq<Attempt>) {
    forall i :: 0 <= i < |plan| ==> plan[i].Moves? || plan[i].Interrupt?
  }

  /** The first `calls` calls of the plan move `need` bytes, or are all it has. */
  ghost predicate Serves(plan: seq<Attempt>, calls: nat, need: nat)
    requires calls <= |plan|
  {
    Clean(plan[..calls]) && (calls == |plan| || need <= Capacity(plan[..calls]))
  }

  lemma {:induction false} GrantsIff(plan: seq<Attempt>, need: nat)
    ensures Grants(plan, need) <==> exists calls | 0 <= calls <= |plan| :: Serves(plan, calls, need)
  {
    if need == 0 {
      assert Serves(plan, 0, need);
    } else if plan == [] {
      assert Serves(plan, 0, need);
    } else {
      var later := need - Min(need, if plan[0].Moves? then plan[0].count else 0);
      GrantsIff(plan[1..], later);
      forall calls | 1 <= calls <= |plan|
        ensures Serves(plan, calls, need) <==> Clean(plan[..1]) && Serves(plan[1..], calls - 1, later)
      {
        assert plan[..calls] == [plan[0]] + plan[1..][..calls - 1];
      }
      assert !Serves(plan, 0, need);
      if Grants(plan, need) {
        var calls :| 0 <= calls <= |plan| - 1 && Serves(plan[1..], calls, later);
        assert Serves(plan, calls + 1, need);
      }
    }
  }

  /** The calls of the plan read `remaining` bytes chunk by chunk, and one of them finds
      nothing left, before a call fails. */
  ghost predicate Drains(plan: seq<Attempt>, remaining: nat) {
    plan == [] ||
    match plan[0]
    case Moves(count) => remaining == 0 || Drains(plan[1..], remaining - Min(Min(CHUNK, remaining), count))
    case Interrupt => Drains(plan[1..], remaining)
    case Stuck => remaining == 0
    case Fails(_) => false
  }

  /** The most bytes that the calls of a plan move in chunks. */
  ghost function ChunkCapacity(plan: seq<Attempt>): nat {
    if plan == [] then 0
    else (if plan[0].Moves? then Min(CHUNK, plan[0].count) else 0) + ChunkCapacity(plan[1..])
  }

  /** The first `calls` calls move all that remains and the next one finds it gone, or
      they are all the plan has. */
  ghost predicate Empties(plan: seq<Attempt>, calls: nat, remaining: nat)
    requires calls <= |plan|
  {
    Clean(plan[..calls]) &&
    (calls == |plan| ||
     (remaining <= ChunkCapacity(plan[..calls]) && (plan[calls].Moves? || plan[calls].Stuck?)))
  }

  lemma {:induction false} DrainsIff(plan: seq<Attempt>, remaining: nat)
    ensures Drains(plan, remaining) <==> exists calls | 0 <= calls <= |plan| :: Empties(plan, calls, remaining)
  {
    if plan == [] {
      assert Empties(plan, 0, remaining);
    } else {
      var moved := if plan[0].Moves? then Min(Min(CHUNK, remaining), plan[0].count) else 0;
      DrainsIff(plan[1..], remaining - moved);
      forall calls | 1 <= calls <= |plan|
        ensures Empties(plan, calls, remaining) <==>
          Clean(plan[..1]) && Empties(plan[1..], calls - 1, remaining - moved)
      {
        assert plan[..calls] == [plan[0]] + plan[1..][..calls - 1];
      }
      assert Empties(plan, 0, remaining) <==> remaining == 0 && (plan[0].Moves? || plan[0].Stuck?);
      if Drains(plan, remaining) {
        if remaining == 0 && !plan[0].Interrupt? {
          assert Empties(plan, 0, remaining);
        } else {
          var calls :| 0 <= calls <= |plan| - 1 && Empties(plan[1..], calls, remaining - moved);
          assert Empties(plan, calls + 1, remaining);
        }
      }
    }
  }

  /** `bad` is the first call of the plan that fails or gets stuck. */
  ghost predicate FirstBad(plan: seq<Attempt>, bad: Attempt) {
    exists i :: 0 <= i < |plan| && plan[i] == bad && Clean(plan[..i])
  }

  lemma FirstBadLater(plan: seq<Attempt>, bad: Attempt)
    requires plan != [] && (plan[0].Moves? || plan[0].Interrupt?) && FirstBad(plan[1..], bad)
    ensures FirstBad(plan, bad)
  {
    var i :| 0 <= i < |plan| - 1 && plan[1..][i] == bad && Clean(plan[1..][..i]);
    assert plan[..i + 1] == [plan[0]] + plan[1..][..i];
    assert plan[i + 1] == bad && Clean(plan[..i + 1]);
  }

  lemma FirstBadNow(plan: seq<Attempt>)
    requires plan != []
    ensures FirstBad(plan, plan[0])
  {
    assert Clean(plan[..0]);
  }

  lemma GrantsNothing()
    ensures forall plan :: Grants(plan, 0)
  {
  }

  /** What one call means for a loop that has `need` bytes to move. */
  lemma OneCall(plan: seq<Attempt>, need: nat, available: nat)
    ensures var r := Reply(plan, need, available);
      (r.Ok? ==> r.value <= need && r.value <= available) &&
      (r == Ok(0) ==> need == 0 || available == 0 || (Stuck in plan && FirstBad(plan, Stuck))) &&
      (r.Err? && r.error != Interrupted ==> r.error.Device? && FirstBad(plan, Fails(r.error.code))) &&
      (r.Err? ==> |Later(plan)| < |plan|)
    ensures Stuck !in plan ==> Stuck !in Later(plan)
    ensures var r := Reply(plan, need, available);
      r == Err(Interrupted) || (r.Ok? && r.value > 0) ==>
        forall bad :: FirstBad(Later(plan), bad) ==> FirstBad(plan, bad)
  {
    if plan != [] {
      FirstBadNow(plan);
      assert plan[0] in plan;
      forall bad | (plan[0].Moves? || plan[0].Interrupt?) && FirstBad(plan[1..], bad) ensures FirstBad(plan, bad) {
        FirstBadLater(plan, bad);
      }
    }
  }

  lemma DrainsOn(plan: seq<Attempt>, remaining: nat)
    requires Stuck !in plan
    ensures Drains(plan, remaining) <==>
      match Reply(plan, CHUNK, remaining)
      case Ok(n) => n == 0 || (n <= remaining && Drains(Later(plan), remaining - n))
      case Err(error) => error == Interrupted && Drains(Later(plan), remaining)
  {
    if plan != [] {
      assert plan[0] in plan;
    }
  }

  lemma GrantsOn(plan: seq<Attempt>, need: nat, available: nat)
    requires 0 < need <= available
    ensures Grants(plan, need) <==>
      match Reply(plan, need, available)
      case Ok(n) => 0 < n <= need && Grants(Later(plan), need - n)
      case Err(error) => error == Interrupted && Grants(Later(plan), need)
  {
  }

  /** The first `count` bytes of `from` have gone to the front of a buffer that held
      `before`; `rest` remains. */
  ghost predicate Filled(from: seq<byte>, before: seq<byte>, count: nat, buffer: seq<byte>, rest: seq<byte>) {
    count <= |from| && count <= |before| &&
    buffer == from[..count] + before[count..] && rest == from[count..]
  }

  /** The first `count` bytes of `from` have gone to a buffer from `start` on. */
  ghost predicate Moved(before: seq<byte>, start: nat, from: seq<byte>, count: nat,
                        buffer: seq<byte>, rest: seq<byte>)
  {
    count <= |from| && start + count <= |before| &&
    buffer == before[..start] + from[..count] + before[start + count..] && rest == from[count..]
  }

  lemma FillsOn(from: seq<byte>, before: seq<byte>, filled: nat, buffer: seq<byte>, rest: seq<byte>,
                count: nat, buffer': seq<byte>, rest': seq<byte>)
    requires Filled(from, before, filled, buffer, rest)
    requires Moved(buffer, filled, rest, count, buffer', rest')
    ensures Filled(from, before, filled + count, buffer', rest')
  {
    assert from[..filled + count] == from[..filled] + rest[..count];
    assert buffer[..filled] == from[..filled];
    assert buffer[filled + count..] == before[filled + count..];
  }

  /** A whole read into the front of a buffer. */
  lemma MovedChunk(before: seq<byte>, from: seq<byte>, count: nat, buffer: seq<byte>, rest: seq<byte>)
    requires Moved(before, 0, from, count, buffer, rest)
    ensures count <= |from| && buffer[..count] == from[..count] && rest == from[count..]
  {
  }

  /** The bytes taken from `was` so far have gone to the end of `output`. */
  ghost predicate Appended(was: seq<byte>, before: seq<byte>, output: seq<byte>, rest: seq<byte>) {
    exists k :: 0 <= k <= |was| && rest == was[k..] && output == before + was[..k]
  }

  lemma Regroup(before: seq<byte>, was: seq<byte>, k: nat, count: nat)
    requires k + count <= |was|
    ensures before + was[..k] + was[k..][..count] == before + was[..k + count]
    ensures was[k..][count..] == was[k + count..]
  {
    assert was[..k + count] == was[..k] + was[k..][..count];
  }

  lemma AppendsOn(was: seq<byte>, before: seq<byte>, output: seq<byte>, rest: seq<byte>, count: nat)
    requires Appended(was, before, output, rest) && count <= |rest|
    ensures Appended(was, before, output + rest[..count], rest[count..])
    ensures rest == [] ==> output == before + was
  {
    var k :| 0 <= k <= |was| && rest == was[k..] && output == before + was[..k];
    if rest == [] {
      assert was[..k] == was;
    }
    Regroup(before, was, k, count);
  }

  lemma FilledSizes(from: seq<byte>, before: seq<byte>, filled: nat, buffer: seq<byte>, rest: seq<byte>)
    requires Filled(from, before, filled, buffer, rest)
    ensures filled <= |from| && filled <= |before| && |buffer| == |before| && |rest| == |from| - filled
  {
  }

  /** A buffer was filled in part. */
  ghost predicate PartlyFilled(from: seq<byte>, before: seq<byte>, buffer: seq<byte>, rest: seq<byte>) {
    exists k :: 0 <= k < |before| && Filled(from, before, k, buffer, rest)
  }

  lemma FilledPart(from: seq<byte>, before: seq<byte>, filled: nat, buffer: seq<byte>, rest: seq<byte>)
    requires Filled(from, before, filled, buffer, rest) && filled < |before|
    ensures PartlyFilled(from, before, buffer, rest)
  {
  }

  lemma FilledUp(from: seq<byte>, before: seq<byte>, buffer: seq<byte>, rest: seq<byte>)
    requires Filled(from, before, |before|, buffer, rest)
    ensures |before| <= |from| && buffer == from[..|before|] && rest == from[|before|..]
  {
  }

  lemma UsedUp(from: seq<byte>, before: seq<byte>, buffer: seq<byte>, rest: seq<byte>)
    requires Filled(from, before, |from|, buffer, rest)
    ensures |from| <= |before| && buffer == from + before[|from|..] && rest == []
  {
    assert from[..|from|] == from;
  }

  /** The first `done` bytes of a buffer have gone behind what was written before. */
  ghost predicate Wrote(before: seq<byte>, buffer: seq<byte>, done: nat, written: seq<byte>) {
    done <= |buffer| && written == before + buffer[..done]
  }

  lemma WroteOn(before: seq<byte>, buffer: seq<byte>, done: nat, written: seq<byte>, count: nat)
    requires Wrote(before, buffer, done, written) && done + count <= |buffer|
    ensures Wrote(before, buffer, done + count, written + buffer[done..done + count])
  {
    assert buffer[..done + count] == buffer[..done] + buffer[done..done + count];
  }

  lemma WroteAll(before: seq<byte>, buffer: seq<byte>, done: nat, written: seq<byte>)
    requires Wrote(before, buffer, done, written)
    ensures done == |buffer| ==> written == before + buffer
    ensures done < |buffer| ==> WrotePart(before, buffer, written)
  {
    assert done == |buffer| ==> buffer[..done] == buffer;
  }

  /** A proper prefix of the buffer was written. */
  ghost predicate WrotePart(before: seq<byte>, buffer: seq<byte>, written: seq<byte>) {
    exists k :: 0 <= k < |buffer| && Wrote(before, buffer, k, written)
  }

  /** A file that is read: the bytes after its cursor. */
  class Source {
    var rest: seq<byte>
    var plan: seq<Attempt>

    /** A source answers zero bytes for a nonempty buffer only at its end. */
    ghost predicate Valid() reads this {
      Stuck !in plan
    }

    /** One `read` into `buffer[start..]`. */
    method Read(buffer: array<byte>, start: nat) returns (r: IoResult<nat>)
      requires Valid() && start <= buffer.Length
      modifies this, buffer
      ensures Valid()
      ensures plan == Later(old(plan)) && r == Reply(old(plan), buffer.Length - start, |old(rest)|)
      ensures r.Err? ==> rest == old(rest) && buffer[..] == old(buffer[..])
      ensures r.Ok? ==> Moved(old(buffer[..]), start, old(rest), r.value, buffer[..], rest)
    {
      var most := buffer.Length - start;
      if plan != [] {
        var attempt := plan[0];
        plan := plan[1..];
        match attempt
        case Fails(code) =>
          return Err(Device(code));
        case Interrupt =>
          return Err(Interrupted);
        case Moves(count) =>
          most := Min(most, count);
      }
      var moved := Min(most, |rest|);
      for i := 0 to moved
        invariant rest == old(rest) && plan == old(if plan == [] then [] else plan[1..])
        invariant forall j :: 0 <= j < i ==> buffer[start + j] == rest[j]
        invariant forall j :: 0 <= j < buffer.Length && !(start <= j < start + i) ==> buffer[j] == old(buffer[j])
      {
        buffer[start + i] := rest[i];
      }
      rest := rest[moved..];
      return Ok(moved);
    }

    /** The source's next bytes after `was` have gone to the first `filled` places of a
        buffer that held `before`. */
    ghost predicate Fills(buffer: array<byte>, was: seq<byte>, before: seq<byte>, filled: nat)
      reads this, buffer
    {
      |before| == buffer.Length && Filled(was, before, filled, buffer[..], rest)
    }

    /** One `read` into the unfilled slice of a buffer. */
    method ReadMore(buffer: array<byte>, filled: nat, ghost was: seq<byte>, ghost before: seq<byte>)
      returns (r: IoResult<nat>)
      requires Valid() && filled < buffer.Length && Fills(buffer, was, before, filled)
      modifies this, buffer
      ensures Valid() && plan == Later(old(plan)) && filled <= |was|
      ensures r == Reply(old(plan), buffer.Length - filled, |was| - filled)
      ensures r.Ok? ==> Fills(buffer, was, before, filled + r.value)
      ensures r.Err? ==> Fills(buffer, was, before, filled)
    {
      ghost var left, held := rest, buffer[..];
      FilledSizes(was, before, filled, held, left);
      hide Filled, Moved, Reply, Later;
      r := Read(buffer, filled);
      if r.Ok? {
        FillsOn(was, before, filled, held, left, r.value, buffer[..], rest);
      }
    }

    /** The loop of `read_exact`: `filled` is where the unfilled slice starts. */
    method FillBuffer(buffer: array<byte>, ghost was: seq<byte>, ghost before: seq<byte>)
        returns (r: IoResult<()>, filled: nat)
      requires Valid() && Fills(buffer, was, before, 0)
      modifies this, buffer
      ensures Valid() && Fills(buffer, was, before, filled) && filled <= |was|
      ensures r.Ok? <==> buffer.Length <= |was| && Grants(old(plan), buffer.Length)
      ensures r.Ok? ==> filled == buffer.Length
      ensures r == Err(UnexpectedEof) ==> filled == |was| < buffer.Length
      ensures r.Err? && r.error != UnexpectedEof ==>
        r.error.Device? && FirstBad(old(plan), Fails(r.error.code)) && filled < buffer.Length
    {
      r, filled := Ok(()), 0;
      hide Grants, Fills, Later, Reply, FirstBad;
      GrantsNothing();
      FillsSizes(buffer, was, before, filled);
      while filled < buffer.Length
        invariant Valid() && filled <= buffer.Length && Fills(buffer, was, before, filled) && filled <= |was|
        invariant buffer.Length <= |was| ==>
          (Grants(old(plan), buffer.Length) <==> Grants(plan, buffer.Length - filled))
        invariant forall bad :: FirstBad(plan, bad) ==> FirstBad(old(plan), bad)
        decreases buffer.Length - filled, |plan|
      {
        OneCall(plan, buffer.Length - filled, |was| - filled);
        if buffer.Length <= |was| {
          GrantsOn(plan, buffer.Length - filled, |was| - filled);
        }
        var read := ReadMore(buffer, filled, was, before);
        match read
        case Ok(n) =>
          if n == 0 {
            return Err(UnexpectedEof), filled;
          }
          filled := filled + n;
        case Err(error) =>
          if error != Interrupted {
            return Err(error), filled;
          }
      }
    }

    lemma FillsSizes(buffer: array<byte>, was: seq<byte>, before: seq<byte>, filled: nat)
      requires Fills(buffer, was, before, filled)
      ensures filled <= |was| && |rest| == |was| - filled
    {
    }

    /** `read_exact` */
    method ReadExact(buffer: array<byte>) returns (r: IoResult<()>)
      requires Valid()
      modifies this, buffer
      ensures Valid()
      ensures r.Ok? <==> buffer.Length <= |old(rest)| && Grants(old(plan), buffer.Length)
      ensures r.Ok? ==> buffer[..] == old(rest)[..buffer.Length] && rest == old(rest)[buffer.Length..]
      ensures r == Err(UnexpectedEof) ==>
        |old(rest)| < buffer.Length && rest == [] && buffer[..] == old(rest) + old(buffer[..])[|old(rest)|..]
      ensures r.Err? && r.error != UnexpectedEof ==>
        r.error.Device? && FirstBad(old(plan), Fails(r.error.code)) &&
        PartlyFilled(old(rest), old(buffer[..]), buffer[..], rest)
    {
      ghost var was, before := rest, buffer[..];
      assert Filled(was, before, 0, before, was);
      hide Grants, Filled, PartlyFilled, FirstBad;
      var filled;
      r, filled := FillBuffer(buffer, was, before);
      if r.Ok? {
        FilledUp(was, before, buffer[..], rest);
      } else if r.error.UnexpectedEof? {
        UsedUp(was, before, buffer[..], rest);
      } else {
        FilledPart(was, before, filled, buffer[..], rest);
      }
    }

    /** `read_to_end`: the loop goes on until a read answers zero bytes. */
    method ReadToEnd(output: Bytes) returns (r: IoResult<nat>)
      requires Valid()
      modifies this, output
      ensures Valid()
      ensures r.Ok? ==>
        r.value == |old(rest)| && rest == [] && output.contents == old(output.contents) + old(rest)
      ensures r.Ok? <==> Drains(old(plan), |old(rest)|)
      ensures r.Err? ==>
        r.error.Device? && FirstBad(old(plan), Fails(r.error.code)) &&
        Appended(old(rest), old(output.contents), output.contents, rest)
    {
      var start := |output.contents|;
      var buffer := new byte[CHUNK](_ => 0);
      ghost var was, held := rest, output.contents;
      assert was == was[0..] && held == held + was[..0];
      assert Appended(was, held, output.contents, rest);
      hide Appended, Moved, Reply, Later, Drains, FirstBad;
      while true
        invariant Valid() && Appended(was, held, output.contents, rest)
        invariant |output.contents| + |rest| == start + |was|
        invariant Drains(old(plan), |was|) <==> Drains(plan, |rest|)
        invariant forall bad :: FirstBad(plan, bad) ==> FirstBad(old(plan), bad)
        decreases |rest|, |plan|
      {
        ghost var left, chunk := rest, buffer[..];
        OneCall(plan, CHUNK, |rest|);
        DrainsOn(plan, |rest|);
        var moved := Read(buffer, 0);
        match moved
        case Ok(n) =>
          MovedChunk(chunk, left, n, buffer[..], rest);
          AppendsOn(was, held, output.contents, left, n);
          if n == 0 {
            return Ok(|output.contents| - start);
          }
          output.contents := output.contents + buffer[..n];
        case Err(error) =>
          if error != Interrupted {
            return Err(error);
          }
      }
    }

    /** `read_to_string`; `decode` is `String::from_utf8`. */
    method ReadToString(output: Text, decode: seq<byte> -> Decoded) returns (r: IoResult<nat>)
      requires Valid()
      modifies this, output
      ensures Valid()
      ensures r.Ok? ==>
        decode(old(rest)).Valid? && r.value == |old(rest)| && rest == [] &&
        output.contents == old(output.contents) + decode(old(rest)).text
      ensures r.Err? ==> output.contents == old(output.contents)
      ensures r == Err(InvalidData) ==> decode(old(rest)).Invalid? && rest == []
      ensures r.Err? && r.error != InvalidData ==> r.error.Device? && FirstBad(old(plan), Fails(r.error.code))
      ensures r.Ok? <==> Drains(old(plan), |old(rest)|) && decode(old(rest)).Valid?
      ensures r == Err(InvalidData) <==> Drains(old(plan), |old(rest)|) && decode(old(rest)).Invalid?
    {
      hide Drains, FirstBad;
      var bytes := new Bytes();
      var read := ReadToEnd(bytes);
      if read.Err? {
        return read;
      }
      assert bytes.contents == old(rest);
      match decode(bytes.contents)
      case Invalid => return Err(InvalidData);
      case Valid(text) =>
        output.contents := output.contents + text;
        return read;
    }
  }

  datatype Decoded = Valid(text: string) | Invalid

  /** A `Vec<u8>`. */
  class Bytes {
    var contents: seq<byte>

    constructor ()
      ensures contents == []
    {
      contents := [];
    }
  }

  /** A `String`. */
  class Text {
    var contents: string
  }

  /** A file that is written: the bytes before its cursor. */
  class Sink {
    var written: seq<byte>
    var plan: seq<Attempt>

    /** One `write` of `buffer[start..]`. */
    method Write(buffer: seq<byte>, start: nat) returns (r: IoResult<nat>)
      requires start <= |buffer|
      modifies this
      ensures plan == Later(old(plan)) && r == Reply(old(plan), |buffer| - start, |buffer| - start)
      ensures r.Ok? ==> r.value <= |buffer| - start
      ensures written == if r.Ok? then old(written) + buffer[start..start + r.value] else old(written)
    {
      var moved := |buffer| - start;
      if plan != [] {
        var attempt := plan[0];
        plan := plan[1..];
        match attempt
        case Fails(code) =>
          return Err(Device(code));
        case Interrupt =>
          return Err(Interrupted);
        case Moves(count) =>
          moved := Min(moved, count);
        case Stuck =>
          moved := 0;
      }
      written := written + buffer[start..start + moved];
      return Ok(moved);
    }

    /** `write_all`: `done` is where the unwritten slice starts. */
    method WriteAll(buffer: seq<byte>) returns (r: IoResult<()>)
      modifies this
      ensures r.Ok? <==> Grants(old(plan), |buffer|)
      ensures r.Ok? ==> written == old(written) + buffer
      ensures r.Err? ==> WrotePart(old(written), buffer, written)
      ensures r.Err? ==>
        (r.error == WriteZero && FirstBad(old(plan), Stuck)) ||
        (r.error.Device? && FirstBad(old(plan), Fails(r.error.code)))
    {
      var done := 0;
      ghost var before := written;
      assert Wrote(before, buffer, 0, written);
      hide Grants, Reply, Later, Wrote, WrotePart, FirstBad;
      GrantsNothing();
      while done < |buffer|
        invariant done <= |buffer| && Wrote(before, buffer, done, written)
        invariant Grants(old(plan), |buffer|) <==> Grants(plan, |buffer| - done)
        invariant forall bad :: FirstBad(plan, bad) ==> FirstBad(old(plan), bad)
        decreases |buffer| - done, |plan|
      {
        WroteAll(before, buffer, done, written);
        ghost var was := written;
        OneCall(plan, |buffer| - done, |buffer| - done);
        GrantsOn(plan, |buffer| - done, |buffer| - done);
        var moved := Write(buffer, done);
        match moved
        case Ok(n) =>
          WroteOn(before, buffer, done, was, n);
          if n == 0 {
            return Err(WriteZero);
          }
          done := done + n;
        case Err(error) =>
          if error != Interrupted {
            return Err(error);
          }
      }
      WroteAll(before, buffer, done, written);
      return Ok(());
    }
  }
}
