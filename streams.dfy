/**
 * The byte-copy loop both extraction routines use: read into a 1024-byte
 * buffer until read() returns -1, writing each chunk read. The streams are
 * reduced to what the loop observes: the input's remaining bytes and the
 * output's bytes written so far, chunk by chunk.
 */
module Streams {
  type byte = bv8

  /** The size of the copy buffer. */
  const BUFFER_SIZE := 1024

  /** An input stream over a fixed byte sequence, read from `pos` on. */
  class InputStream {
    const data: seq<byte>
    var pos: nat

    ghost predicate Valid()
      reads this
    {
      pos <= |data|
    }

    constructor (data: seq<byte>)
      ensures Valid() && this.data == data && pos == 0
    {
      this.data := data;
      pos := 0;
    }

    /**
     * read(byte[]): at the end of the stream returns -1 and changes nothing;
     * otherwise the stream chooses how many bytes to deliver, at least one and
     * at most the buffer's length, and places them at the start of the buffer.
     */
    method Read(buffer: array<byte>) returns (n: int)
      requires Valid() && buffer.Length > 0
      modifies this`pos, buffer
      ensures Valid()
      ensures old(pos) == |data| ==> n == -1 && pos == old(pos) && buffer[..] == old(buffer[..])
      ensures old(pos) < |data| ==>
                && 1 <= n <= buffer.Length && pos == old(pos) + n
                && buffer[..n] == data[old(pos)..pos]
                && buffer[n..] == old(buffer[n..])
    {
      if pos == |data| {
        return -1;
      }
      var k: nat :| 1 <= k <= buffer.Length && pos + k <= |data|;
      forall i | 0 <= i < k {
        buffer[i] := data[pos + i];
      }
      pos := pos + k;
      n := k;
    }
  }

  /** An output stream: the bytes written so far, and the length of each write. */
  class OutputStream {
    var written: seq<byte>
    var chunks: seq<nat>

    constructor ()
      ensures written == [] && chunks == []
    {
      written := [];
      chunks := [];
    }

    /** write(buffer, off, len): appends that slice of the buffer. */
    method Write(buffer: array<byte>, off: nat, len: nat)
      requires off + len <= buffer.Length
      modifies this
      ensures written == old(written) + buffer[off..off + len]
      ensures chunks == old(chunks) + [len]
    {
      written := written + buffer[off..off + len];
      chunks := chunks + [len];
    }
  }

  /** Every write of the copy loop moved between 1 and BUFFER_SIZE bytes. */
  ghost predicate ChunksBounded(chunks: seq<nat>, from: nat) {
    forall i :: from <= i < |chunks| ==> 1 <= chunks[i] <= BUFFER_SIZE
  }

  /**
   * The copy loop: everything the input had left is appended to the output,
   * in order, in writes of 1 to BUFFER_SIZE bytes, and the input is exhausted.
   */
  method CopyStream(input: InputStream, output: OutputStream, buffer: array<byte>)
    requires input.Valid() && buffer.Length == BUFFER_SIZE
    modifies input`pos, output, buffer
    ensures input.Valid() && input.pos == |input.data|
    ensures output.written == old(output.written) + input.data[old(input.pos)..]
    ensures |output.chunks| >= |old(output.chunks)| && output.chunks[..|old(output.chunks)|] == old(output.chunks)
    ensures ChunksBounded(output.chunks, |old(output.chunks)|)
  {
    while true
      invariant input.Valid() && old(input.pos) <= input.pos
      invariant output.written == old(output.written) + input.data[old(input.pos)..input.pos]
      invariant |output.chunks| >= |old(output.chunks)| && output.chunks[..|old(output.chunks)|] == old(output.chunks)
      invariant ChunksBounded(output.chunks, |old(output.chunks)|)
      decreases |input.data| - input.pos
    {
      var bytesRead := input.Read(buffer);
      if bytesRead == -1 {
        break;
      }
      ghost var before := input.pos - bytesRead;
      output.Write(buffer, 0, bytesRead);
      assert input.data[old(input.pos)..input.pos]
          == input.data[old(input.pos)..before] + input.data[before..input.pos];
    }
  }
}
