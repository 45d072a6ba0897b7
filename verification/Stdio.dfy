/** The bounded writer, the bounded reader and the two proxies that stand between a host and the server. */
module Stdio {
  import opened Collections
  import opened Text
  import opened Streams
  import opened StdioModel
  import opened StdioProofs

  datatype WriteError = FrameTooLarge | SinkFailed | ShortWrite

  /** To what was sent before, the first k frames and a beginning of the next have been added. */
  ghost predicate StoppedIn(frames: seq<string>, k: nat, before: string, after: string)
    requires k < |frames|
  {
    exists m: nat :: m <= |frames[k]| && after == before + Concat(frames[..k]) + frames[k][..m]
  }

  ghost predicate StoppedInSome(frames: seq<string>, before: string, after: string) {
    exists k: nat :: k < |frames| && StoppedIn(frames, k, before, after)
  }

  lemma ConcatOneMore(frames: seq<string>, k: nat)
    requires k < |frames|
    ensures Concat(frames[..k + 1]) == Concat(frames[..k]) + frames[k]
  {
    assert frames[..k + 1] == frames[..k] + [frames[k]];
    ConcatAppend(frames[..k], [frames[k]]);
    assert Concat([frames[k]]) == frames[k] + Concat([]);
  }

  /** The first k frames of a cut have been sent on, and the rest of the input holds the others. */
  ghost predicate Forwarded(cut: Cut, input: string, rest: string, max: nat, k: nat, before: string, after: string) {
    && k <= |cut.frames|
    && CutFrames(rest, max) == cut.(frames := cut.frames[k..])
    && input == Concat(cut.frames[..k]) + rest
    && after == before + Concat(cut.frames[..k])
  }

  lemma ForwardNone(input: string, max: nat, before: string)
    ensures Forwarded(CutFrames(input, max), input, input, max, 0, before, before)
  {
  }

  lemma LineIsFrame(rest: string, max: nat, line: string, later: string)
    requires rest == line + later && line != "" && IndexOf(rest, '\n') == Some(|line| - 1) && |line| <= max
    ensures CutFrames(rest, max) == Joined([line], CutFrames(later, max))
  {
    assert rest[..|line|] == line && rest[|line|..] == later;
  }

  lemma NextOfCut(cut: Cut, k: nat, line: string, later: Cut, before: string, after: string)
    requires k <= |cut.frames| && cut.(frames := cut.frames[k..]) == Joined([line], later)
    requires after == before + Concat(cut.frames[..k])
    ensures k < |cut.frames| && cut.frames[k] == line && later == cut.(frames := cut.frames[k + 1..])
    ensures Concat(cut.frames[..k + 1]) == Concat(cut.frames[..k]) + line
    ensures forall m: nat :: m <= |line| ==> StoppedIn(cut.frames, k, before, after + line[..m])
  {
    assert cut.frames[k..] == [line] + later.frames;
    assert cut.frames[k..][0] == line;
    assert cut.frames[k + 1..] == cut.frames[k..][1..];
    ConcatOneMore(cut.frames, k);
    forall m: nat | m <= |line| ensures StoppedIn(cut.frames, k, before, after + line[..m]) {
      assert after + line[..m] == before + Concat(cut.frames[..k]) + cut.frames[k][..m];
    }
  }

  /** The next frame is the rest's first line, when it is within the limit. */
  lemma ForwardOne(cut: Cut, input: string, rest: string, max: nat, k: nat, before: string, after: string, line: string,
                   later: string)
    requires Forwarded(cut, input, rest, max, k, before, after)
    requires rest == line + later && line != "" && IndexOf(rest, '\n') == Some(|line| - 1) && |line| <= max
    ensures k < |cut.frames| && cut.frames[k] == line
    ensures Forwarded(cut, input, later, max, k + 1, before, after + line)
    ensures forall m: nat :: m <= |line| ==> StoppedIn(cut.frames, k, before, after + line[..m])
  {
    LineIsFrame(rest, max, line, later);
    NextOfCut(cut, k, line, CutFrames(later, max), before, after);
  }

  /** Without a line within the limit, all frames have been sent on. */
  lemma ForwardedAll(cut: Cut, input: string, rest: string, max: nat, k: nat, before: string, after: string)
    requires Forwarded(cut, input, rest, max, k, before, after)
    requires var newline := IndexOf(rest, '\n'); newline.Some? ==> newline.value + 1 > max
    ensures k == |cut.frames| && after == before + Concat(cut.frames)
    ensures cut.tooLarge == (IndexOf(rest, '\n').Some? || |rest| > max)
    ensures cut.tooLarge <==> |rest| > max
    ensures !cut.tooLarge ==> cut.pending == rest && input == Concat(cut.frames) + rest
  {
    assert cut.frames[..k] == cut.frames;
  }

  class JsonWriter {
    const sink: Sink
    const maxFrame: nat
    var pending: string

    constructor (sink: Sink, maxFrame: nat)
      ensures this.sink == sink && this.maxFrame == maxFrame && pending == ""
    {
      this.sink, this.maxFrame, pending := sink, maxFrame, "";
    }

    /**
     Emits the complete frames of what was pending and what arrives. A frame too large drops what
     is pending; a failing sink leaves the frame it failed on, and all that follows, pending.
     */
    method Write(data: string) returns (n: nat, error: Option<WriteError>)
      modifies this, sink
      ensures WriteOutcome(CutFrames(old(pending) + data, maxFrame), old(pending) + data, pending, error,
                           old(sink.received), sink.received)
      ensures n == if error.None? then |data| else 0
      ensures sink.reliable ==> error.None? || error == Some(FrameTooLarge)
      ensures AreFramesOf(CutFrames(old(pending) + data, maxFrame).frames, old(pending) + data, maxFrame)
    {
      FramesAreFrames(pending + data, maxFrame);
      pending := pending + data;
      error := None;
      ghost var cut, k := CutFrames(pending, maxFrame), 0;
      ForwardNone(pending, maxFrame, sink.received);
      var more := true;
      while more
        invariant if more
          then
            && error.None?
            && Forwarded(cut, old(pending) + data, pending, maxFrame, k, old(sink.received), sink.received)
          else WriteOutcome(cut, old(pending) + data, pending, error, old(sink.received), sink.received)
        invariant sink.reliable ==> error.None? || error == Some(FrameTooLarge)
        decreases more, |pending|
      {
        more, error := EmitNext(cut, old(pending) + data, k, old(sink.received));
        k := k + 1;
      }
      n := if error.None? then |data| else 0;
    }

    /** One turn of the loop: whether to go on, and the error otherwise. */
    method EmitNext(ghost cut: Cut, ghost input: string, ghost k: nat, ghost before: string)
        returns (more: bool, error: Option<WriteError>)
      requires Forwarded(cut, input, pending, maxFrame, k, before, sink.received)
      modifies this, sink
      ensures if more
        then
          && error.None? && |pending| < |old(pending)|
          && Forwarded(cut, input, pending, maxFrame, k + 1, before, sink.received)
        else WriteOutcome(cut, input, pending, error, before, sink.received)
      ensures sink.reliable ==> error.None? || error == Some(FrameTooLarge)
    {
      var newline := IndexOf(pending, '\n');
      if newline.None? || newline.value + 1 > maxFrame {
        error := Settle(cut, input, k, before);
        more := false;
      } else {
        error := Emit(cut, input, k, before, newline.value + 1);
        more := error.None?;
      }
    }

    /** No frame is left to be cut off: what is pending stays, unless it is too large already. */
    method Settle(ghost cut: Cut, ghost input: string, ghost k: nat, ghost before: string)
        returns (error: Option<WriteError>)
      requires Forwarded(cut, input, pending, maxFrame, k, before, sink.received)
      requires var newline := IndexOf(pending, '\n'); newline.Some? ==> newline.value + 1 > maxFrame
      modifies this`pending
      ensures WriteOutcome(cut, input, pending, error, before, sink.received)
      ensures error.None? || error == Some(FrameTooLarge)
    {
      ForwardedAll(cut, input, pending, maxFrame, k, before, sink.received);
      error := None;
      if IndexOf(pending, '\n').Some? || |pending| > maxFrame {
        pending, error := "", Some(FrameTooLarge);
      }
    }

    /** Hands the first frame of what is pending to the sink. */
    method Emit(ghost cut: Cut, ghost input: string, ghost k: nat, ghost before: string, frameBytes: nat)
        returns (error: Option<WriteError>)
      requires Forwarded(cut, input, pending, maxFrame, k, before, sink.received)
      requires 0 < frameBytes <= maxFrame && IndexOf(pending, '\n') == Some(frameBytes - 1)
      modifies this, sink
      ensures error.None? ==> Forwarded(cut, input, pending, maxFrame, k + 1, before, sink.received)
      ensures error.None? ==> |pending| < |old(pending)|
      ensures sink.reliable ==> error.None?
      ensures error.Some? ==> WriteOutcome(cut, input, pending, error, before, sink.received)
    {
      var frame := pending[..frameBytes];
      ForwardOne(cut, input, pending, maxFrame, k, before, sink.received, frame, pending[frameBytes..]);
      ghost var received := sink.received;
      var written, failed := sink.Write(frame);
      assert sink.received == received + frame[..written];
      assert Unsent(input, pending, cut.frames, k, before, sink.received);
      if failed {
        error := Some(SinkFailed);
      } else if written != frameBytes {
        error := Some(ShortWrite);
      } else {
        error := None;
        assert frame[..written] == frame;
        pending := pending[frameBytes..];
      }
    }
  }

  /** Each is one line within the limit, and together they are a beginning of the input. */
  predicate AreFramesOf(frames: seq<string>, input: string, max: nat) {
    && (forall i :: 0 <= i < |frames| ==> IsLine(frames[i]) && |frames[i]| <= max)
    && Concat(frames) <= input
  }

  lemma FramesAreFrames(input: string, max: nat)
    ensures AreFramesOf(CutFrames(input, max).frames, input, max)
  {
    FramesAreLines(input, max);
    FramesArePrefix(input, max);
  }

  /** What one write, or several, leave behind for the input that was there to be framed. */
  ghost predicate WriteOutcome(cut: Cut, input: string, pending: string, error: Option<WriteError>, before: string,
                               after: string)
  {
    match error
    case None => !cut.tooLarge && pending == cut.pending && after == before + Concat(cut.frames)
    case Some(FrameTooLarge) => cut.tooLarge && pending == "" && after == before + Concat(cut.frames)
    case Some(_) => exists k: nat :: k < |cut.frames| && Unsent(input, pending, cut.frames, k, before, after)
  }

  /** The sink failed on frame k, which is the first that is still pending. */
  ghost predicate Unsent(input: string, pending: string, frames: seq<string>, k: nat, before: string, after: string)
    requires k < |frames|
  {
    StoppedIn(frames, k, before, after) && input == Concat(frames[..k]) + pending
  }

  /** Any number of writes, up to the first error: what they emit depends only on the bytes written. */
  method WriteChunks(w: JsonWriter, chunks: seq<string>) returns (error: Option<WriteError>)
    requires '\n' !in w.pending && |w.pending| <= w.maxFrame
    modifies w, w.sink
    ensures var input := old(w.pending) + Concat(chunks);
      ChunksOutcome(CutFrames(input, w.maxFrame), w.pending, error, old(w.sink.received), w.sink.received)
    ensures w.sink.reliable ==> error.None? || error == Some(FrameTooLarge)
  {
    error := None;
    ghost var arrived := w.pending;
    var i := 0;
    assert chunks[..0] == [];
    SettledCut(w.pending, w.maxFrame);
    while i < |chunks| && error.None?
      invariant 0 <= i <= |chunks|
      invariant arrived == old(w.pending) + Concat(chunks[..i])
      invariant ChunksOutcome(CutFrames(arrived, w.maxFrame), w.pending, error, old(w.sink.received), w.sink.received)
      invariant w.sink.reliable ==> error.None? || error == Some(FrameTooLarge)
      decreases |chunks| - i
    {
      error := WriteNext(w, chunks[i], arrived, old(w.sink.received));
      ConcatOneMore(chunks, i);
      arrived := arrived + chunks[i];
      i := i + 1;
    }
    ArrivedIsPrefix(old(w.pending), chunks, i);
    LastChunk(arrived, Concat(chunks[i..]), w.pending, w.maxFrame, error, old(w.sink.received), w.sink.received);
  }

  /** One more write, when none has failed so far. */
  method WriteNext(w: JsonWriter, chunk: string, ghost arrived: string, ghost before: string)
      returns (error: Option<WriteError>)
    requires ChunksOutcome(CutFrames(arrived, w.maxFrame), w.pending, None, before, w.sink.received)
    modifies w, w.sink
    ensures ChunksOutcome(CutFrames(arrived + chunk, w.maxFrame), w.pending, error, before, w.sink.received)
    ensures w.sink.reliable ==> error.None? || error == Some(FrameTooLarge)
  {
    var n;
    n, error := w.Write(chunk);
    NextChunk(arrived, old(w.pending), chunk, w.pending, w.maxFrame, error, before, old(w.sink.received),
              w.sink.received);
  }

  lemma NextChunk(arrived: string, pending: string, data: string, pending': string, max: nat, error: Option<WriteError>,
                  before: string, middle: string, after: string)
    requires ChunksOutcome(CutFrames(arrived, max), pending, None, before, middle)
    requires WriteOutcome(CutFrames(pending + data, max), pending + data, pending', error, middle, after)
    ensures ChunksOutcome(CutFrames(arrived + data, max), pending', error, before, after)
  {
    CutInTwo(arrived, data, max);
    WriteAgain(CutFrames(arrived, max), CutFrames(pending + data, max), pending + data, pending', error, before, middle,
               after);
  }

  lemma LastChunk(arrived: string, later: string, pending: string, max: nat, error: Option<WriteError>, before: string,
                  after: string)
    requires ChunksOutcome(CutFrames(arrived, max), pending, error, before, after)
    requires error.Some? || later == ""
    ensures ChunksOutcome(CutFrames(arrived + later, max), pending, error, before, after)
  {
    if error.Some? {
      var cut := CutFrames(arrived, max);
      CutInTwo(arrived, later, max);
      MoreAfterError(cut, CutFrames(cut.pending + later, max), pending, error, before, after);
    } else {
      assert arrived + later == arrived;
    }
  }

  /** What several writes leave behind. */
  ghost predicate ChunksOutcome(cut: Cut, pending: string, error: Option<WriteError>, before: string, after: string) {
    match error
    case None => !cut.tooLarge && pending == cut.pending && after == before + Concat(cut.frames)
    case Some(FrameTooLarge) => cut.tooLarge && pending == "" && after == before + Concat(cut.frames)
    case Some(_) => StoppedInSome(cut.frames, before, after)
  }

  lemma SettledCut(pending: string, max: nat)
    requires '\n' !in pending && |pending| <= max
    ensures CutFrames(pending, max) == Cut([], pending, false)
  {
    IndexOfIsFirst(pending, '\n');
  }

  lemma ArrivedIsPrefix(pending: string, chunks: seq<string>, i: nat)
    requires i <= |chunks|
    ensures pending + Concat(chunks) == pending + Concat(chunks[..i]) + Concat(chunks[i..])
    ensures i == |chunks| ==> Concat(chunks[i..]) == ""
  {
    var first, second := chunks[..i], chunks[i..];
    assert first + second == chunks;
    ConcatAppend(first, second);
    assert pending + Concat(first) + Concat(second) == pending + (Concat(first) + Concat(second));
  }

  /** A further write on what earlier writes left is one write of everything. */
  lemma WriteAgain(cut: Cut, more: Cut, input: string, pending: string, error: Option<WriteError>,
                   before: string, middle: string, after: string)
    requires middle == before + Concat(cut.frames)
    requires WriteOutcome(more, input, pending, error, middle, after)
    ensures ChunksOutcome(Joined(cut.frames, more), pending, error, before, after)
  {
    if error.Some? && error.value != FrameTooLarge {
      StoppedLater(before, cut.frames, more.frames, input, pending, middle, after);
    } else {
      ConcatAppend(cut.frames, more.frames);
      assert before + (Concat(cut.frames) + Concat(more.frames)) == middle + Concat(more.frames);
    }
  }

  lemma StoppedLater(before: string, done: seq<string>, frames: seq<string>, input: string, pending: string,
                     middle: string, after: string)
    requires middle == before + Concat(done)
    requires exists k: nat :: k < |frames| && Unsent(input, pending, frames, k, middle, after)
    ensures StoppedInSome(done + frames, before, after)
  {
    var k: nat :| k < |frames| && Unsent(input, pending, frames, k, middle, after);
    assert StoppedInSome(frames, middle, after);
    PartOfMore(before, done, frames, [], after);
    assert done + frames + [] == done + frames;
  }

  /** What has not been written when an error strikes does not change what the error says. */
  lemma MoreAfterError(cut: Cut, more: Cut, pending: string, error: Option<WriteError>, before: string, after: string)
    requires error.Some? && ChunksOutcome(cut, pending, error, before, after)
    ensures ChunksOutcome(if cut.tooLarge then cut else Joined(cut.frames, more), pending, error, before, after)
  {
    if error.value != FrameTooLarge {
      assert before + Concat([]) == before;
      PartOfMore(before, [], cut.frames, more.frames, after);
      assert [] + cut.frames + more.frames == cut.frames + more.frames;
    }
  }

  /** Stopping in a frame, some frames on, is stopping in one of all the frames. */
  lemma PartOfMore(before: string, done: seq<string>, frames: seq<string>, later: seq<string>, after: string)
    requires StoppedInSome(frames, before + Concat(done), after)
    ensures StoppedInSome(done + frames + later, before, after)
  {
    var k: nat :| k < |frames| && StoppedIn(frames, k, before + Concat(done), after);
    var m: nat :| m <= |frames[k]| && after == before + Concat(done) + Concat(frames[..k]) + frames[k][..m];
    var all := done + frames + later;
    var at := |done| + k;
    assert all[..at] == done + frames[..k];
    ConcatAppend(done, frames[..k]);
    assert after == before + Concat(all[..at]) + all[at][..m];
    assert StoppedIn(all, at, before, after);
  }

  // ----- the reader -----

  datatype FrameError = TooLarge | EndOfFile | ReadFailed

  /** The next frame; anything but a whole frame within the limit is an error. */
  method ReadFrame(input: Input, maxFrame: nat) returns (line: string, error: Option<FrameError>)
    requires input.bufferSize > maxFrame
    modifies input
    ensures var stream := old(input.stream);
      var newline := IndexOf(stream, '\n');
      if newline.Some? && newline.value + 1 <= maxFrame then
        error.None? && |line| == newline.value + 1 && stream == line + input.stream
      else
        error == Some(if |stream| > maxFrame then TooLarge else if input.broken then ReadFailed
                      else if stream == "" then EndOfFile else TooLarge)
  {
    ghost var stream := input.stream;
    var end;
    line, end := input.ReadSlice();
    error := None;
    IndexOfIsFirst(stream, '\n');
    assert forall i :: 0 <= i < |line| ==> line[i] == stream[i];
    assert end != AtNewline && IndexOf(stream, '\n').Some? ==> IndexOf(stream, '\n').value >= |line|;
    if end == BufferFull || |line| > maxFrame {
      error := Some(TooLarge);
    } else if end == AtEnd {
      error := Some(if input.broken then ReadFailed else if line == "" then EndOfFile else TooLarge);
    }
  }

  // ----- the proxies -----

  datatype ProxyEnd = Ended(error: FrameError) | Rejected | Canceled | WriteFailed

  /** How a proxy's end relates to what it forwarded; k frames went out whole. */
  ghost predicate ProxyOutcome(cut: Cut, stream: string, broken: bool, end: ProxyEnd, k: nat, before: string,
                               after: string)
  {
    && k <= |cut.frames|
    && match end
       case Ended(EndOfFile) => after == before + stream && k == |cut.frames| && !broken
       case Ended(TooLarge) => after == before + Concat(cut.frames) && k == |cut.frames|
         && (cut.tooLarge || cut.pending != "")
       case Ended(ReadFailed) => after == before + Concat(cut.frames) && k == |cut.frames| && !cut.tooLarge && broken
       case Rejected => k < |cut.frames| && after == before + Concat(cut.frames[..k])
       case Canceled => after == before + Concat(cut.frames[..k])
         || (k < |cut.frames| && StoppedIn(cut.frames, k, before, after))
       case WriteFailed => k < |cut.frames| && StoppedIn(cut.frames, k, before, after)
  }

  /** A whole frame is all there is to cut from itself. */
  lemma OneLineCut(line: string, rest: string, max: nat)
    requires line != "" && IndexOf(line + rest, '\n') == Some(|line| - 1) && |line| <= max
    ensures CutFrames("" + line, max) == Cut([line], "", false)
  {
    var head := line[..|line| - 1];
    IndexOfIsFirst(line + rest, '\n');
    assert head == (line + rest)[..|line| - 1];
    assert "" + line == head + ['\n'] + "";
    IndexOfFirst(head, '\n', "");
    LineIsFrame("" + line, max, line, "");
    assert CutFrames("", max) == Cut([], "", false);
  }

  /** Writing one whole frame through the bounded writer adds it, or a beginning of it. */
  lemma OneLineWrite(line: string, pending: string, error: Option<WriteError>, before: string, after: string)
    requires WriteOutcome(Cut([line], "", false), "" + line, pending, error, before, after)
    ensures error.None? ==> pending == "" && after == before + line
    ensures error.Some? ==> exists m: nat :: m <= |line| && after == before + line[..m]
  {
    assert Concat([line]) == line + Concat([]);
    if error.Some? {
      assert StoppedIn([line], 0, before, after);
      var m: nat :| m <= |line| && after == before + Concat([line][..0]) + [line][0][..m];
      assert after == before + line[..m];
    }
  }

  /**
   The response proxy forwards the server's frames, whole and in order, until the stream ends or
   breaks, a frame is too large, the host's side fails, or it is canceled between two frames.
   */
  method ProxyResponses(input: Input, sink: Sink, maxFrame: nat) returns (end: ProxyEnd)
    requires input.bufferSize > maxFrame
    modifies input, sink
    ensures end != Rejected && (sink.reliable ==> end != WriteFailed)
    ensures exists k: nat ::
      ProxyOutcome(CutFrames(old(input.stream), maxFrame), old(input.stream), input.broken, end, k,
                   old(sink.received), sink.received)
    ensures end == Canceled ==> exists k: nat ::
      Forwarded(CutFrames(old(input.stream), maxFrame), old(input.stream), input.stream, maxFrame, k,
                old(sink.received), sink.received)
  {
    var writer := new JsonWriter(sink, maxFrame);
    ghost var cut, k := CutFrames(input.stream, maxFrame), 0;
    ForwardNone(input.stream, maxFrame, sink.received);
    end := Canceled;
    var canceled: bool := *;
    while end == Canceled && !canceled
      invariant writer.sink == sink && writer.maxFrame == maxFrame && fresh(writer)
      invariant end != Rejected && (sink.reliable ==> end != WriteFailed)
      invariant if end == Canceled
        then writer.pending == ""
             && Forwarded(cut, old(input.stream), input.stream, maxFrame, k, old(sink.received), sink.received)
        else ProxyOutcome(cut, old(input.stream), input.broken, end, k, old(sink.received), sink.received)
      decreases end == Canceled, |input.stream|
    {
      end := ForwardResponse(input, writer, cut, old(input.stream), k, old(sink.received));
      k := if end == Canceled then k + 1 else k;
      canceled := *;
    }
    assert ProxyOutcome(cut, old(input.stream), input.broken, end, k, old(sink.received), sink.received);
  }

  /** One turn of the response proxy; Canceled stands for going on. */
  method ForwardResponse(input: Input, writer: JsonWriter, ghost cut: Cut, ghost all: string, ghost k: nat,
                         ghost before: string) returns (end: ProxyEnd)
    requires input.bufferSize > writer.maxFrame && writer.pending == ""
    requires Forwarded(cut, all, input.stream, writer.maxFrame, k, before, writer.sink.received)
    modifies input, writer, writer.sink
    ensures end != Rejected && (writer.sink.reliable ==> end != WriteFailed)
    ensures if end == Canceled
      then writer.pending == "" && |input.stream| < |old(input.stream)|
           && Forwarded(cut, all, input.stream, writer.maxFrame, k + 1, before, writer.sink.received)
      else ProxyOutcome(cut, all, input.broken, end, k, before, writer.sink.received)
  {
    ghost var stream, sent := input.stream, writer.sink.received;
    var line, error := ReadFrame(input, writer.maxFrame);
    if error.Some? {
      end := Ended(error.value);
      ForwardedAll(cut, all, stream, writer.maxFrame, k, before, sent);
    } else {
      ForwardOne(cut, all, stream, writer.maxFrame, k, before, sent, line, input.stream);
      OneLineCut(line, input.stream, writer.maxFrame);
      var n, failure := writer.Write(line);
      OneLineWrite(line, writer.pending, failure, sent, writer.sink.received);
      end := if failure.Some? then WriteFailed else Canceled;
    }
  }

  /** Everything, in as many partial writes as the sink wants. */
  method WriteAll(sink: Sink, payload: string) returns (failure: Option<ProxyEnd>)
    modifies sink
    ensures failure.None? ==> sink.received == old(sink.received) + payload
    ensures failure.Some? ==> failure.value in {Canceled, WriteFailed}
    ensures failure.Some? ==> exists m: nat :: m <= |payload| && sink.received == old(sink.received) + payload[..m]
  {
    failure := None;
    var rest := payload;
    ghost var m: nat := 0;
    assert payload[..0] == "";
    while rest != "" && failure.None?
      invariant m <= |payload| && sink.received == old(sink.received) + payload[..m]
      invariant failure.None? ==> rest == payload[m..]
      invariant failure.Some? ==> failure.value in {Canceled, WriteFailed}
      decreases failure.None?, |rest|
    {
      var canceled: bool := *;
      if canceled {
        failure := Some(Canceled);
      } else {
        var n, failed := sink.Write(rest);
        assert payload[..m] + rest[..n] == payload[..m + n];
        m := m + n;
        if failed || n == 0 {
          failure := Some(WriteFailed);
        } else {
          rest := rest[n..];
        }
      }
    }
    if failure.None? { assert payload[..m] == payload; }
  }

  /**
   The request proxy forwards the host's frames, whole and in order, as long as each is valid;
   nothing from the first invalid frame on reaches the server.
   */
  method ProxyRequests(input: Input, sink: Sink, maxFrame: nat, valid: string -> bool) returns (end: ProxyEnd)
    requires input.bufferSize > maxFrame
    modifies input, sink
    ensures exists k: nat ::
      && ProxyOutcome(CutFrames(old(input.stream), maxFrame), old(input.stream), input.broken, end, k,
                      old(sink.received), sink.received)
      && Vetted(CutFrames(old(input.stream), maxFrame).frames, k, valid, end)
  {
    ghost var cut, k := CutFrames(input.stream, maxFrame), 0;
    ForwardNone(input.stream, maxFrame, sink.received);
    end := Canceled;
    var canceled: bool := *;
    var more := true;
    while more && !canceled
      invariant k <= |cut.frames| && Vetted(cut.frames, k, valid, end)
      invariant if more
        then end == Canceled
             && Forwarded(cut, old(input.stream), input.stream, maxFrame, k, old(sink.received), sink.received)
        else ProxyOutcome(cut, old(input.stream), input.broken, end, k, old(sink.received), sink.received)
      decreases more, |input.stream|
    {
      more, end := ForwardRequest(input, sink, maxFrame, valid, cut, old(input.stream), k, old(sink.received));
      k := if more then k + 1 else k;
      canceled := *;
    }
  }

  /** One turn of the request proxy: whether to go on, and how it ended otherwise. */
  method ForwardRequest(input: Input, sink: Sink, maxFrame: nat, valid: string -> bool, ghost cut: Cut,
                        ghost all: string, ghost k: nat, ghost before: string) returns (more: bool, end: ProxyEnd)
    requires input.bufferSize > maxFrame
    requires Forwarded(cut, all, input.stream, maxFrame, k, before, sink.received)
    modifies input, sink
    ensures if more
      then end == Canceled && |input.stream| < |old(input.stream)|
           && k < |cut.frames| && valid(cut.frames[k])
           && Forwarded(cut, all, input.stream, maxFrame, k + 1, before, sink.received)
      else ProxyOutcome(cut, all, input.broken, end, k, before, sink.received)
    ensures k < |cut.frames| && end == Rejected ==> !valid(cut.frames[k])
    ensures k < |cut.frames| && end == WriteFailed ==> valid(cut.frames[k])
  {
    ghost var stream, sent := input.stream, sink.received;
    var line, error := ReadFrame(input, maxFrame);
    more, end := false, Canceled;
    if error.Some? {
      end := Ended(error.value);
      ForwardedAll(cut, all, stream, maxFrame, k, before, sent);
    } else {
      ForwardOne(cut, all, stream, maxFrame, k, before, sent, line, input.stream);
      if !valid(line) {
        end := Rejected;
      } else {
        var failure := WriteAll(sink, line);
        if failure.Some? {
          end := failure.value;
        } else {
          more := true;
        }
      }
    }
  }

  /** All that was forwarded is valid, and a rejected frame is not. */
  ghost predicate Vetted(frames: seq<string>, k: nat, valid: string -> bool, end: ProxyEnd)
  {
    && (forall i :: 0 <= i < k && i < |frames| ==> valid(frames[i]))
    && (k < |frames| && end == Rejected ==> !valid(frames[k]))
    && (k < |frames| && end == WriteFailed ==> valid(frames[k]))
  }
}
