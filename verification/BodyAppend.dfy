/**
  `BodyAppendTask` of host-apis/wasi-0.2.0/host_api.cpp, with the two bodies it connects. The host's
  streams choose freely how much they deliver and accept; the rules they keep are the contracts of
  `HttpIncomingBody.Read` and of the three methods of `OutputStream`.
*/
module BodyAppend {
  import opened Wrappers

  type byte = x: int | 0 <= x < 0x100

  datatype ReadResult = ReadResult(done: bool, bytes: seq<byte>)

  datatype AppendState = BlockedOnBoth | BlockedOnIncoming | BlockedOnOutgoing | Ready | Done

  /** Reads that each delivered something. */
  predicate AllBytes(results: seq<ReadResult>) {
    forall k :: 0 <= k < |results| ==> !results[k].done && results[k].bytes != []
  }

  /** Why a run stopped, given what its reads delivered. */
  predicate StoppedWell(results: seq<ReadResult>, state: AppendState) {
    && (state.BlockedOnOutgoing? ==> AllBytes(results))
    && (state.BlockedOnIncoming? ==> results != [] && AllBytes(results[..|results| - 1]) && results[|results| - 1] == ReadResult(false, []))
    && (state.Done? ==> results == [] || (AllBytes(results[..|results| - 1]) && results[|results| - 1].done))
  }

  function Since(heard: seq<ReadResult>, n: nat): seq<ReadResult>
    requires n <= |heard|
  {
    heard[n..]
  }

  lemma SinceIs(heard: seq<ReadResult>, results: seq<ReadResult>, result: ReadResult)
    ensures Since(heard + results, |heard|) == results
    ensures (heard + results) + [result] == heard + (results + [result])
    ensures Since(heard + (results + [result]), |heard|) == results + [result]
  {
  }

  lemma NoneHeard(heard: seq<ReadResult>)
    ensures heard + [] == heard && AllBytes([])
    ensures StoppedWell(Since(heard, |heard|), BlockedOnOutgoing) && StoppedWell(Since(heard, |heard|), Done)
  {
  }

  lemma StopsWell(results: seq<ReadResult>, result: ReadResult)
    requires AllBytes(results)
    ensures StoppedWell(results, BlockedOnOutgoing)
    ensures !result.done && |result.bytes| == 0 ==> StoppedWell(results + [result], BlockedOnIncoming)
    ensures result.done ==> StoppedWell(results + [result], Done)
    ensures !result.done && |result.bytes| != 0 ==> AllBytes(results + [result])
  {
    assert (results + [result])[..|results|] == results;
  }

  predicate Blocked(state: AppendState) {
    state.BlockedOnBoth? || state.BlockedOnIncoming? || state.BlockedOnOutgoing?
  }

  /** An input stream, and the bytes it has not delivered yet. */
  class HttpIncomingBody {
    var rest: seq<byte>

    // What the reads that did not fail have delivered.
    ghost var heard: seq<ReadResult>

    constructor (bytes: seq<byte>)
      ensures rest == bytes && heard == []
    {
      rest := bytes;
      heard := [];
    }

    /** At most `chunkSize` bytes, perhaps none; the stream is closed only when all were delivered. */
    method Read(chunkSize: nat) returns (result: Option<ReadResult>)
      modifies this
      ensures result.None? ==> rest == old(rest) && heard == old(heard)
      ensures result.Some? ==> |result.value.bytes| <= chunkSize && old(rest) == result.value.bytes + rest
      ensures result.Some? ==> heard == old(heard) + [result.value]
      ensures result.Some? && result.value.done ==> result.value.bytes == [] && old(rest) == []
    {
      var failed: bool, closed: bool, size: int := *, *, *;
      if failed {
        return None;
      }
      if closed && rest == [] {
        result := Some(ReadResult(true, []));
      } else if 0 <= size <= chunkSize && size <= |rest| {
        result := Some(ReadResult(false, rest[..size]));
        rest := rest[size..];
      } else {
        result := Some(ReadResult(false, []));
      }
      heard := heard + [result.value];
    }

    /** The empty read of a stream whose pollable has resolved, which does not fail. */
    method Probe() returns (done: bool)
      ensures done ==> rest == []
    {
      var closed: bool := *;
      done := closed && rest == [];
    }
  }

  /** An output stream. `permitted` bytes may still be written; more are permitted at any time, fewer only by writing. */
  class OutputStream {
    var written: seq<byte>
    var permitted: nat

    constructor ()
      ensures written == [] && permitted == 0
    {
      written := [];
      permitted := 0;
    }

    method CheckWrite() returns (capacity: Option<nat>)
      modifies `permitted
      ensures capacity.None? ==> permitted == old(permitted)
      ensures capacity.Some? ==> capacity.value == permitted
      ensures old(permitted) <= permitted && (old(permitted) < 0x1_0000_0000 ==> permitted < 0x1_0000_0000)
    {
      var failed: bool, more: nat := *, *;
      if failed {
        return None;
      }
      if permitted < more < 0x1_0000_0000 {
        permitted := more;
      }
      capacity := Some(permitted);
    }

    /** Writing more than was permitted traps. */
    method Write(bytes: seq<byte>) returns (ok: bool)
      requires |bytes| <= permitted
      modifies this
      ensures ok ==> written == old(written) + bytes && permitted == old(permitted) - |bytes|
      ensures !ok ==> written == old(written) && permitted == old(permitted)
    {
      ok := *;
      if ok {
        written := written + bytes;
        permitted := permitted - |bytes|;
      }
    }
  }

  class HttpOutgoingBody {
    const stream: OutputStream
    var valid: bool

    constructor (stream: OutputStream)
      ensures this.stream == stream && valid
    {
      this.stream := stream;
      valid := true;
    }

    method Capacity() returns (capacity: Option<nat>)
      modifies stream`permitted
      ensures capacity.Some? ==> valid && capacity.value == stream.permitted
      ensures old(stream.permitted) <= stream.permitted
      ensures old(stream.permitted) < 0x1_0000_0000 ==> stream.permitted < 0x1_0000_0000
    {
      if !valid {
        return None;
      }
      capacity := stream.CheckWrite();
    }

    /** `write`: as much of the bytes as the stream takes now. */
    method Write(bytes: seq<byte>) returns (size: Option<nat>)
      requires stream.permitted < 0x1_0000_0000
      modifies stream
      ensures stream.permitted < 0x1_0000_0000
      ensures size.None? ==> stream.written == old(stream.written)
      ensures size.Some? ==> size.value <= |bytes| && stream.written == old(stream.written) + bytes[..size.value]
      ensures size.Some? && |bytes| <= old(stream.permitted) ==> size.value == |bytes|
    {
      var capacity := Capacity();
      if capacity.None? {
        return None;
      }
      // On wasm32 the cast to `size_t` keeps the low 32 bits of the capacity.
      var available := capacity.value % 0x1_0000_0000;
      var bytesToWrite := if |bytes| < available then |bytes| else available;
      var ok := stream.Write(bytes[..bytesToWrite]);
      size := if ok then Some(bytesToWrite) else None;
    }
  }

  /** The queue that tasks are put on. */
  class TaskQueue {
    var tasks: seq<BodyAppendTask>

    constructor ()
      ensures tasks == []
    {
      tasks := [];
    }

    method QueueAsyncTask(task: BodyAppendTask)
      modifies this
      ensures tasks == old(tasks) + [task]
    {
      tasks := tasks + [task];
    }
  }

  class BodyAppendTask {
    const incomingBody: HttpIncomingBody
    const outgoingBody: HttpOutgoingBody
    const incomingPollable: int
    const outgoingPollable: int
    var state: AppendState

    // The bytes to be appended, and what the outgoing body held before them.
    ghost const source: seq<byte>
    ghost const before: seq<byte>

    ghost predicate Valid()
      reads this, incomingBody, outgoingBody.stream
    {
      outgoingBody.stream.permitted < 0x1_0000_0000
    }

    /** Between runs nothing is in flight: what was read has been written, in order and once. */
    ghost predicate Conserved()
      reads incomingBody, outgoingBody.stream
    {
      outgoingBody.stream.written + incomingBody.rest == before + source
    }

    constructor (incomingBody: HttpIncomingBody, outgoingBody: HttpOutgoingBody, incomingPollable: int, outgoingPollable: int)
      requires outgoingBody.stream.permitted < 0x1_0000_0000
      ensures Valid() && Conserved() && state == BlockedOnBoth
      ensures source == incomingBody.rest && before == outgoingBody.stream.written
      ensures this.incomingBody == incomingBody && this.outgoingBody == outgoingBody
    {
      this.incomingBody := incomingBody;
      this.outgoingBody := outgoingBody;
      this.incomingPollable := incomingPollable;
      this.outgoingPollable := outgoingPollable;
      state := BlockedOnBoth;
      source := incomingBody.rest;
      before := outgoingBody.stream.written;
    }

    /** Nothing leaves `Done`: the assertion of `set_state` is a precondition here. */
    method SetState(next: AppendState)
      requires state != Done
      modifies `state
      ensures state == next
    {
      state := next;
    }

    /** What is asked of a queued task; the assertion that it is blocked is a precondition here. */
    function Id(): (id: int)
      requires Blocked(state)
      reads this
    {
      if state.BlockedOnBoth? || state.BlockedOnIncoming? then incomingPollable else outgoingPollable
    }

    /** The inner loop: the whole chunk goes out, since the stream has permitted as much. */
    method WriteChunk(bytes: seq<byte>) returns (ok: bool)
      requires Valid() && |bytes| <= outgoingBody.stream.permitted
      modifies outgoingBody.stream
      ensures Valid()
      ensures ok ==> outgoingBody.stream.written == old(outgoingBody.stream.written) + bytes
      ensures !ok ==> old(outgoingBody.stream.written) <= outgoingBody.stream.written <= old(outgoingBody.stream.written) + bytes
    {
      var offset := 0;
      while |bytes| - offset > 0
        invariant offset == 0 || offset == |bytes|
        invariant Valid() && outgoingBody.stream.written == old(outgoingBody.stream.written) + bytes[..offset]
        invariant offset == 0 ==> |bytes| <= outgoingBody.stream.permitted
        decreases |bytes| - offset
      {
        var size := outgoingBody.Write(bytes[offset..]);
        if size.None? {
          return false;
        }
        offset := offset + size.value;
      }
      ok := true;
    }

    /** One pass of the outer loop: reads a chunk, no longer than the capacity, and writes it. */
    method MoveChunk(capacity: nat) returns (result: Option<ReadResult>)
      requires Valid() && Conserved() && capacity <= outgoingBody.stream.permitted
      modifies incomingBody, outgoingBody.stream
      ensures Valid() && outgoingBody.stream.written <= before + source && old(incomingBody.heard) <= incomingBody.heard
      ensures result.Some? ==> Conserved() && incomingBody.heard == old(incomingBody.heard) + [result.value]
      ensures result.Some? ==> |result.value.bytes| <= capacity && old(incomingBody.rest) == result.value.bytes + incomingBody.rest
      ensures result.Some? && result.value.done ==> incomingBody.rest == []
      ensures result.Some? && |result.value.bytes| == 0 && !result.value.done ==>
        outgoingBody.stream.permitted == old(outgoingBody.stream.permitted)
    {
      result := incomingBody.Read(capacity % 0x1_0000_0000);
      if result.None? || (|result.value.bytes| == 0 && !result.value.done) {
        return;
      }
      var written := WriteChunk(result.value.bytes);
      if !written {
        result := None;
      }
    }

    /** The outer loop. */
    method Transfer(available: nat, queue: TaskQueue) returns (ok: bool)
      requires Valid() && Conserved() && state.Ready? && 0 < available <= outgoingBody.stream.permitted
      modifies `state, incomingBody, outgoingBody.stream, queue
      ensures Valid()
      ensures ok ==> Conserved()
      ensures ok && state.Done? ==> outgoingBody.stream.written == before + source && queue.tasks == old(queue.tasks)
      ensures ok && !state.Done? ==> Blocked(state) && queue.tasks == old(queue.tasks) + [this]
      ensures ok && !state.Done? ==> !state.BlockedOnBoth? && (state.BlockedOnOutgoing? <==> outgoingBody.stream.permitted == 0)
      ensures !ok ==> outgoingBody.stream.written <= before + source && queue.tasks == old(queue.tasks)
      ensures old(incomingBody.heard) <= incomingBody.heard
      ensures ok ==> StoppedWell(Since(incomingBody.heard, |old(incomingBody.heard)|), state)
    {
      ghost var heard, results: seq<ReadResult> := incomingBody.heard, [];
      NoneHeard(heard);
      hide AllBytes, StoppedWell, Since;
      var capacity: nat := available;
      var looping := true;
      while looping
        invariant incomingBody.heard == heard + results && AllBytes(results)
        invariant looping <==> capacity > 0
        invariant Valid() && Conserved() && state.Ready? && queue.tasks == old(queue.tasks)
        invariant capacity <= outgoingBody.stream.permitted
        invariant capacity == 0 ==> outgoingBody.stream.permitted == 0
        decreases |incomingBody.rest|, looping
      {
        var result := MoveChunk(capacity);
        if result.None? {
          return false;
        }
        SinceIs(heard, results, result.value);
        StopsWell(results, result.value);
        results := results + [result.value];
        SinceIs(heard, results, result.value);
        if |result.value.bytes| == 0 && !result.value.done {
          SetState(BlockedOnIncoming);
          queue.QueueAsyncTask(this);
          return true;
        }
        if result.value.done {
          SetState(Done);
          return true;
        }
        var left := outgoingBody.Capacity();
        if left.None? {
          return false;
        }
        capacity := left.value;
        looping := capacity > 0;
      }

      SinceIs(heard, results, ReadResult(true, []));
      StopsWell(results, ReadResult(true, []));
      SetState(BlockedOnOutgoing);
      queue.QueueAsyncTask(this);
      ok := true;
    }

    /**
      A run either fails; or ends the append with the whole source written; or puts the task back on
      the queue, once, blocked again: on the outgoing body if that takes no more for now, and on the
      incoming one only after a read that delivered nothing. It reads on while both can go on, and
      unless it fails everything read so far has been written.
    */
    method Run(queue: TaskQueue) returns (ok: bool)
      requires Valid() && Conserved() && Blocked(state)
      modifies `state, incomingBody, outgoingBody.stream, queue
      ensures Valid()
      ensures ok ==> Conserved()
      ensures ok && state.Done? ==> outgoingBody.stream.written == before + source && queue.tasks == old(queue.tasks)
      ensures ok && !state.Done? ==> Blocked(state) && queue.tasks == old(queue.tasks) + [this]
      ensures ok && !state.Done? ==> !state.BlockedOnBoth? && (state.BlockedOnOutgoing? <==> outgoingBody.stream.permitted == 0)
      ensures !ok ==> outgoingBody.stream.written <= before + source && queue.tasks == old(queue.tasks)
      ensures old(incomingBody.heard) <= incomingBody.heard
      ensures ok ==> StoppedWell(Since(incomingBody.heard, |old(incomingBody.heard)|), state)
    {
      NoneHeard(incomingBody.heard);
      hide StoppedWell, Since;
      if state.BlockedOnBoth? || state.BlockedOnIncoming? {
        var done := incomingBody.Probe();
        if done {
          SetState(Done);
          return true;
        }
        SetState(BlockedOnOutgoing);
      }

      var capacity: nat := 0;
      if state.BlockedOnOutgoing? {
        var available := outgoingBody.Capacity();
        if available.None? {
          return false;
        }
        capacity := available.value;
        if capacity > 0 {
          SetState(Ready);
        } else {
          queue.QueueAsyncTask(this);
          return true;
        }
      }
      assert state.Ready?;

      ok := Transfer(capacity, queue);
    }
  }
}
