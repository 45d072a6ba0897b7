/** Buffered input and unreliable output, as the protocols see them. */
module Streams {
  import opened Collections
  import opened Text

  // What ended a slice of the buffered input.
  datatype SliceEnd = AtNewline | BufferFull | AtEnd

  const SMALLEST_BUFFER := 16

  type BufferSize = n: nat | n >= SMALLEST_BUFFER witness SMALLEST_BUFFER

  class Input {
    const bufferSize: BufferSize
    const broken: bool  // the stream ends with an error rather than an end of file
    var stream: string  // what has not been consumed yet

    constructor (stream: string, size: nat, broken: bool)
      ensures this.stream == stream && this.broken == broken
      ensures bufferSize == if size < SMALLEST_BUFFER then SMALLEST_BUFFER else size
    {
      this.stream, this.broken := stream, broken;
      bufferSize := if size < SMALLEST_BUFFER then SMALLEST_BUFFER else size;
    }

    /**
     Input up to a newline, or as much as the buffer or the stream holds. The end may or may not
     be noticed together with a last full buffer.
     */
    method ReadSlice() returns (chunk: string, end: SliceEnd)
      modifies this
      ensures old(stream) == chunk + stream
      ensures end == AtNewline ==> IndexOf(old(stream), '\n') == Some(|chunk| - 1) && 0 < |chunk| <= bufferSize
      ensures end != AtNewline ==> '\n' !in chunk && |chunk| <= bufferSize
      ensures end == BufferFull ==> |chunk| == bufferSize
      ensures end == AtEnd ==> stream == ""
    {
      var newline := IndexOf(stream, '\n');
      IndexOfIsFirst(stream, '\n');
      var noticed: bool := *;
      var size: nat := bufferSize;
      end := BufferFull;
      if newline.Some? && newline.value < bufferSize {
        size := newline.value + 1;
        end := AtNewline;
      } else if |stream| < bufferSize || (|stream| == bufferSize && noticed) {
        size := |stream|;
        end := AtEnd;
      }
      chunk, stream := stream[..size], stream[size..];
    }
  }

  class Sink {
    const honest: bool  // it reports every short write as a failure
    const reliable: bool  // it takes everything and never fails
    var received: string

    constructor (honest: bool, reliable: bool)
      ensures this.honest == honest && this.reliable == reliable && received == ""
    {
      this.honest, this.reliable, received := honest, reliable, "";
    }

    /** The sink takes a beginning of the payload and may fail. */
    method Write(payload: string) returns (n: nat, failed: bool)
      modifies this
      ensures n <= |payload| && received == old(received) + payload[..n]
      ensures honest && n < |payload| ==> failed
      ensures reliable ==> n == |payload| && !failed
    {
      var taken: int := *;
      if taken < 0 || taken > |payload| || reliable { taken := |payload|; }
      failed := *;
      if reliable { failed := false; }
      if honest && taken < |payload| { failed := true; }
      n := taken;
      received := received + payload[..n];
    }
  }
}
