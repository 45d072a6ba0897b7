/** The reader and the writer of frames as they work on a buffered stream. */
module Framing {
  import opened Collections
  import opened Text
  import opened Streams
  import opened FramingModel

  /** One header line, assembled from slices without ever holding more than the limit. */
  method ReadHeaderLine(input: Input, limit: nat) returns (line: string, error: Option<ReadError>)
    modifies input
    ensures error.None? ==> HeaderLine(old(input.stream), limit) == Got(line, input.stream)
    ensures error.Some? ==> HeaderLine(old(input.stream), limit) == Failed(error.value)
    ensures |line| <= limit
  {
    line, error := "", None;
    var more := true;
    while more
      invariant |line| <= limit
      invariant more ==> error.None? && old(input.stream) == line + input.stream && '\n' !in line
      invariant !more && error.None? ==> HeaderLine(old(input.stream), limit) == Got(line, input.stream)
      invariant error.Some? ==> !more && HeaderLine(old(input.stream), limit) == Failed(error.value)
      decreases more, |input.stream|
    {
      ghost var before := input.stream;
      var chunk, end := input.ReadSlice();
      SliceOfLine(line, before, chunk, end, input.stream, limit);
      assert end == BufferFull ==> |chunk| > 0 && |input.stream| < |before|;
      if |line| + |chunk| > limit {
        more, error := false, Some(TooLarge);
      } else {
        line := line + chunk;
        if end == AtNewline {
          more := false;
        } else if end == AtEnd {
          more, error := false, Some(Ended);
        }
      }
    }
  }

  /** Header lines to the blank one; the length is minus one until a line declares it. */
  method ReadHeaderLines(input: Input, meaning: string -> Meaning) returns (length: int, error: Option<ReadError>)
    modifies input
    ensures length >= -1
    ensures error.None? ==> ReadHeader(meaning, old(input.stream), None, 0) == Got(Length(length), input.stream)
    ensures error.Some? ==> ReadHeader(meaning, old(input.stream), None, 0) == Failed(error.value)
  {
    length, error := -1, None;
    var headerBytes: nat := 0;
    var blank := false;
    while !blank && error.None?
      invariant length >= -1
      invariant error.Some? ==> ReadHeader(meaning, old(input.stream), None, 0) == Failed(error.value)
      invariant error.None? && !blank ==>
        ReadHeader(meaning, old(input.stream), None, 0)
          == ReadHeader(meaning, input.stream, Length(length), headerBytes)
      invariant error.None? && blank ==>
        ReadHeader(meaning, old(input.stream), None, 0) == Got(Length(length), input.stream)
      decreases !blank && error.None?, |input.stream|
    {
      var line, failure := ReadHeaderLine(input, MAX_LINE);
      if failure.Some? {
        error := failure;
      } else if headerBytes + |line| > MAX_HEADER {
        error := Some(TooLarge);
      } else {
        headerBytes := headerBytes + |line|;
        match meaning(line)
        case Blank => blank := true;
        case Declares(n) => length := n;
        case Ignored =>
        case Refused(refusal) => error := Some(refusal);
      }
    }
  }

  /** One frame: a header, then exactly the declared number of bytes. */
  method ReadFrame(input: Input, max: int) returns (body: string, error: Option<ReadError>)
    modifies input
    ensures error.None? ==> FramingModel.ReadFrame(old(input.stream), max) == Got(body, input.stream)
    ensures error.Some? ==> FramingModel.ReadFrame(old(input.stream), max) == Failed(error.value)
  {
    var length;
    body := "";
    length, error := ReadHeaderLines(input, MeaningOf);
    if error.None? {
      if length < 0 {
        error := Some(MissingLength);
      } else if length > EffectiveMax(max) {
        error := Some(TooLarge);
      } else if length > |input.stream| {
        body, input.stream, error := input.stream, "", Some(Ended);
      } else {
        body, input.stream := input.stream[..length], input.stream[length..];
      }
    }
  }

  /** A length of minus one stands for none so far. */
  function Length(length: int): Option<nat> {
    if length < 0 then None else Some(length)
  }

  /** What one slice settles about the line it belongs to. */
  lemma SliceOfLine(line: string, before: string, chunk: string, end: SliceEnd, after: string, limit: nat)
    requires '\n' !in line && before == chunk + after
    requires end == AtNewline ==> |chunk| > 0 && IndexOf(before, '\n') == Some(|chunk| - 1)
    requires end != AtNewline ==> '\n' !in chunk
    requires end == AtEnd ==> after == ""
    ensures end != AtNewline ==> '\n' !in line + chunk
    ensures |line| + |chunk| > limit ==> HeaderLine(line + before, limit) == Failed(TooLarge)
    ensures |line| + |chunk| <= limit && end == AtNewline ==>
      HeaderLine(line + before, limit) == Got(line + chunk, after)
    ensures |line| + |chunk| <= limit && end == AtEnd ==> HeaderLine(line + before, limit) == Failed(Ended)
  {
    if end == AtNewline {
      LineEnds(line, before, chunk, after);
    } else {
      LineGoesOn(line, chunk, after);
      assert line + before == line + chunk + after;
    }
  }

  lemma LineEnds(line: string, before: string, chunk: string, after: string)
    requires '\n' !in line && before == chunk + after
    requires |chunk| > 0 && IndexOf(before, '\n') == Some(|chunk| - 1)
    ensures IndexOf(line + before, '\n') == Some(|line| + |chunk| - 1)
    ensures (line + before)[..|line| + |chunk|] == line + chunk && (line + before)[|line| + |chunk|..] == after
  {
    var n := |chunk| - 1;
    IndexOfIsFirst(before, '\n');
    assert before[..n] == chunk[..n];
    assert line + before == (line + chunk[..n]) + ['\n'] + after;
    IndexOfFirst(line + chunk[..n], '\n', after);
  }

  lemma LineGoesOn(line: string, chunk: string, after: string)
    requires '\n' !in line && '\n' !in chunk
    ensures '\n' !in line + chunk
    ensures var newline := IndexOf(line + chunk + after, '\n');
      if after == "" then newline.None? else newline.None? || newline.value >= |line| + |chunk|
  {
    var whole := line + chunk + after;
    IndexOfIsFirst(whole, '\n');
    assert forall i :: 0 <= i < |line| ==> whole[i] == line[i];
    assert forall i :: 0 <= i < |chunk| ==> whole[|line| + i] == chunk[i];
    assert forall i :: |line| <= i < |line| + |chunk| ==> whole[i] == chunk[i - |line|];
  }

  /**
   A header and a body, on a transport that reports short writes. Whatever fails, nothing but a
   beginning of this frame has been sent.
   */
  method WriteFrame(sink: Sink, body: string) returns (ok: bool)
    requires sink.honest
    modifies sink
    ensures ok ==> sink.received == old(sink.received) + Frame(body)
    ensures !ok ==> exists n :: 0 <= n <= |Frame(body)| && sink.received == old(sink.received) + Frame(body)[..n]
  {
    var header := CONTENT_LENGTH + ": " + Dec(|body|) + "\r\n\r\n";
    var n, failed := sink.Write(header);
    if failed {
      assert Frame(body)[..n] == header[..n];
    } else {
      assert header[..n] == header;
      n, failed := sink.Write(body);
      assert Frame(body)[..|header| + n] == header + body[..n];
      assert failed || header + body[..n] == Frame(body);
    }
    ok := !failed;
  }
}
