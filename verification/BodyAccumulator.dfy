/** The reading of a whole body, `content_stream_read_then_handler` of builtins/web/fetch/request-response.cpp. */
module BodyAccumulator {

  type byte = x: int | 0 <= x < 0x100

  const HANDLE_READ_CHUNK_SIZE := 8192

  function Flatten(chunks: seq<seq<byte>>): seq<byte> {
    if chunks == [] then [] else Flatten(chunks[..|chunks| - 1]) + chunks[|chunks| - 1]
  }

  lemma {:induction false} FlattenPrefix(chunks: seq<seq<byte>>, k: nat)
    requires k <= |chunks|
    ensures Flatten(chunks[..k]) <= Flatten(chunks)
    decreases |chunks|
  {
    if k < |chunks| {
      FlattenPrefix(chunks[..|chunks| - 1], k);
      assert chunks[..|chunks| - 1][..k] == chunks[..k];
    } else {
      assert chunks[..k] == chunks;
    }
  }

  lemma FlattenSnoc(chunks: seq<seq<byte>>, chunk: seq<byte>)
    ensures Flatten(chunks + [chunk]) == Flatten(chunks) + chunk
  {
    assert (chunks + [chunk])[..|chunks|] == chunks;
  }

  /** The length of the longest chunk. */
  function Longest(chunks: seq<seq<byte>>): (n: nat)
    ensures forall k :: 0 <= k < |chunks| ==> |chunks[k]| <= n
    ensures n == 0 || exists k :: 0 <= k < |chunks| && |chunks[k]| == n
  {
    if chunks == [] then 0
    else
      var n, last := Longest(chunks[..|chunks| - 1]), |chunks[|chunks| - 1]|;
      if n < last then last else n
  }

  /** The first loop: a size that all chunks fit into, which exceeds what is needed by a chunk at most and one step. */
  method BufferSize(contents: seq<seq<byte>>) returns (bufSize: nat)
    ensures var total := |Flatten(contents)|; total <= bufSize <= total + Longest(contents) + HANDLE_READ_CHUNK_SIZE
    ensures bufSize % HANDLE_READ_CHUNK_SIZE == 0
  {
    bufSize := HANDLE_READ_CHUNK_SIZE;
    var offset: nat := 0;
    for index := 0 to |contents|
      invariant offset == |Flatten(contents[..index])|
      invariant offset <= bufSize <= offset + Longest(contents[..index]) + HANDLE_READ_CHUNK_SIZE
      invariant bufSize % HANDLE_READ_CHUNK_SIZE == 0
    {
      assert contents[..index + 1][..index] == contents[..index];
      var length := |contents[index]|;
      if length != 0 {
        offset := offset + length;
        if offset > bufSize {
          bufSize := bufSize + HANDLE_READ_CHUNK_SIZE * (length / HANDLE_READ_CHUNK_SIZE + 1);
        }
      }
    }
    assert contents[..|contents|] == contents;
  }

  class BodyAccumulator {
    // The chunks read so far.
    var contents: seq<seq<byte>>

    constructor ()
      ensures contents == []
    {
      contents := [];
    }

    /** A chunk that is no `Uint8Array` is refused. */
    method Read(chunk: seq<byte>, isBytes: bool) returns (ok: bool)
      modifies this
      ensures ok == isBytes
      ensures Flatten(contents) == Flatten(old(contents)) + (if isBytes then chunk else [])
    {
      if !isBytes {
        return false;
      }
      FlattenSnoc(contents, chunk);
      contents := contents + [chunk];
      ok := true;
    }

    /** The stream is done: the buffer holds all chunks in order, ends with a zero, and nothing is written past it. */
    method Done() returns (buf: array<byte>, offset: nat)
      ensures fresh(buf) && offset < buf.Length <= offset + Longest(contents) + HANDLE_READ_CHUNK_SIZE + 1
      ensures buf[..offset] == Flatten(contents) && buf[offset] == 0
    {
      var bufSize := BufferSize(contents);
      buf := new byte[bufSize + 1](_ => 0);
      offset := 0;
      for index := 0 to |contents|
        invariant offset == |Flatten(contents[..index])| && offset <= bufSize
        invariant buf[..offset] == Flatten(contents[..index])
        modifies buf
      {
        assert contents[..index + 1][..index] == contents[..index];
        FlattenPrefix(contents, index + 1);
        var bytes := contents[index];
        if |bytes| != 0 {
          CopyBytes(buf, offset, bytes);
          offset := offset + |bytes|;
        }
      }
      assert contents[..|contents|] == contents;
      buf[offset] := 0;
    }

    /** `memcpy`, within the buffer. */
    static method CopyBytes(buf: array<byte>, offset: nat, bytes: seq<byte>)
      requires offset + |bytes| <= buf.Length
      modifies buf
      ensures buf[..] == old(buf[..offset]) + bytes + old(buf[offset + |bytes|..])
    {
      forall i | 0 <= i < |bytes| {
        buf[offset + i] := bytes[i];
      }
    }
  }
}
