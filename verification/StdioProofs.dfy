/** Bounded framing is exact, and does not depend on how the stream is cut into chunks. */
module StdioProofs {
  import opened Collections
  import opened Text
  import opened StdioModel

  /** The first frame, and what is cut after it. */
  lemma CutOne(stream: string, max: nat) returns (line: string, rest: string)
    requires var newline := IndexOf(stream, '\n'); newline.Some? && newline.value + 1 <= max
    ensures stream == line + rest && IsLine(line) && |line| <= max
    ensures CutFrames(stream, max) == Joined([line], CutFrames(rest, max))
  {
    var n := IndexOf(stream, '\n').value;
    IndexOfIsFirst(stream, '\n');
    line, rest := stream[..n + 1], stream[n + 1..];
    assert line[..n] == stream[..n];
  }

  lemma ConcatCons(line: string, frames: seq<string>)
    ensures Concat([line] + frames) == line + Concat(frames)
  {
    assert ([line] + frames)[1..] == frames;
  }

  /** Every frame is one line within the limit. */
  lemma {:induction false} FramesAreLines(stream: string, max: nat)
    ensures var frames := CutFrames(stream, max).frames;
      forall i :: 0 <= i < |frames| ==> IsLine(frames[i]) && |frames[i]| <= max
    decreases |stream|
  {
    var newline := IndexOf(stream, '\n');
    if newline.Some? && newline.value + 1 <= max {
      var line, rest := CutOne(stream, max);
      FramesAreLines(rest, max);
      var others := CutFrames(rest, max).frames;
      assert forall i :: 0 < i <= |others| ==> ([line] + others)[i] == others[i - 1];
    }
  }

  lemma NoFrame(stream: string, max: nat)
    requires var newline := IndexOf(stream, '\n'); newline.Some? ==> newline.value + 1 > max
    ensures CutFrames(stream, max) == Cut([], "", true)
      || ('\n' !in stream && |stream| <= max && CutFrames(stream, max) == Cut([], stream, false))
  {
    IndexOfIsFirst(stream, '\n');
  }

  lemma FrameBefore(stream: string, line: string, rest: string, cut: Cut)
    requires stream == line + rest && Concat(cut.frames) + cut.pending == rest
    ensures Concat([line] + cut.frames) + cut.pending == stream
  {
    ConcatCons(line, cut.frames);
    assert line + Concat(cut.frames) + cut.pending == line + (Concat(cut.frames) + cut.pending);
  }

  /** Cutting frames loses, adds and reorders nothing, and leaves no newline behind. */
  lemma {:induction false} CutKeepsStream(stream: string, max: nat)
    ensures var cut := CutFrames(stream, max);
      !cut.tooLarge ==> Concat(cut.frames) + cut.pending == stream && '\n' !in cut.pending && |cut.pending| <= max
    decreases |stream|
  {
    var newline := IndexOf(stream, '\n');
    if newline.Some? && newline.value + 1 <= max {
      var line, rest := CutOne(stream, max);
      CutKeepsStream(rest, max);
      var cut := CutFrames(rest, max);
      if !cut.tooLarge { FrameBefore(stream, line, rest, cut); }
    } else {
      NoFrame(stream, max);
    }
  }

  /** Even when a frame is too large, what came before it is cut off unchanged. */
  lemma {:induction false} FramesArePrefix(stream: string, max: nat)
    ensures Concat(CutFrames(stream, max).frames) <= stream
    decreases |stream|
  {
    var newline := IndexOf(stream, '\n');
    if newline.Some? && newline.value + 1 <= max {
      var line, rest := CutOne(stream, max);
      FramesArePrefix(rest, max);
      ConcatCons(line, CutFrames(rest, max).frames);
    }
  }

  /** Unless a frame is too large, what is cut off is the longest prefix that ends in a newline. */
  lemma CutsLongestTerminatedPrefix(stream: string, max: nat, n: nat)
    requires !CutFrames(stream, max).tooLarge
    requires 0 < n <= |stream| && stream[n - 1] == '\n'
    ensures n <= |Concat(CutFrames(stream, max).frames)|
  {
    CutKeepsStream(stream, max);
    var cut := CutFrames(stream, max);
    var done := |Concat(cut.frames)|;
    assert forall i :: done <= i < |stream| ==> stream[i] == cut.pending[i - done];
  }

  /** A frame is too large exactly when more than the limit follows a line start without a newline. */
  lemma {:induction false} TooLargeIffOverlong(stream: string, max: nat)
    ensures CutFrames(stream, max).tooLarge <==> IsOverlong(stream, max)
    decreases |stream|
  {
    var newline := IndexOf(stream, '\n');
    IndexOfIsFirst(stream, '\n');
    if newline.Some? && newline.value + 1 <= max {
      var k := newline.value + 1;
      var rest := stream[k..];
      TooLargeIffOverlong(rest, max);
      OverlongAfterLine(stream, k, max);
    } else {
      OverlongAtStart(stream, max);
    }
  }

  /** A first line within the limit does not matter. */
  lemma OverlongAfterLine(stream: string, k: nat, max: nat)
    requires 0 < k <= max && k <= |stream| && stream[k - 1] == '\n' && '\n' !in stream[..k - 1]
    ensures IsOverlong(stream[k..], max) <==> IsOverlong(stream, max)
  {
    var rest := stream[k..];
    if i: nat :| OverlongAt(rest, i, max) {
      assert stream[k + i..k + i + max] == rest[i..i + max];
      assert OverlongAt(stream, k + i, max);
    }
    if i: nat :| OverlongAt(stream, i, max) {
      assert forall j :: 0 <= j < k - 1 ==> stream[j] == stream[..k - 1][j];
      assert forall j :: i <= j < i + max ==> stream[j] == stream[i..i + max][j - i];
      assert i >= k;
      var j := i - k;
      assert stream[i..i + max] == rest[j..j + max];
      assert OverlongAt(rest, j, max);
    }
  }

  lemma OverlongAtStart(stream: string, max: nat)
    requires var newline := IndexOf(stream, '\n'); newline.None? || newline.value + 1 > max
    ensures CutFrames(stream, max).tooLarge <==> IsOverlong(stream, max)
  {
    var newline := IndexOf(stream, '\n');
    IndexOfIsFirst(stream, '\n');
    if newline.Some? || |stream| > max {
      assert forall c :: c in stream[0..max] ==> c != '\n';
      assert OverlongAt(stream, 0, max);
    }
  }

  /** More bytes do not change the first frame. */
  lemma FirstFrameStays(first: string, second: string)
    requires IndexOf(first, '\n').Some?
    ensures var k := IndexOf(first, '\n').value + 1;
      && IndexOf(first + second, '\n') == IndexOf(first, '\n')
      && (first + second)[..k] == first[..k] && (first + second)[k..] == first[k..] + second
  {
    var k := IndexOf(first, '\n').value + 1;
    IndexOfIsFirst(first, '\n');
    assert first + second == first[..k - 1] + ['\n'] + (first[k..] + second);
    IndexOfFirst(first[..k - 1], '\n', first[k..] + second);
  }

  /** More bytes do not make a frame that is too large fit. */
  lemma TooLargeStays(first: string, second: string, max: nat)
    requires IndexOf(first, '\n').None? && |first| > max
    ensures CutFrames(first + second, max) == Cut([], "", true)
  {
    var both := first + second;
    IndexOfIsFirst(first, '\n');
    IndexOfIsFirst(both, '\n');
    assert forall i :: 0 <= i < |first| ==> both[i] == first[i];
  }

  lemma JoinedTwice(first: seq<string>, second: seq<string>, cut: Cut)
    ensures Joined(first, Joined(second, cut)) == Joined(first + second, cut)
    ensures Joined([], cut) == cut
  {
    assert first + (second + cut.frames) == first + second + cut.frames;
  }

  /** Cutting what has arrived and then what was pending with the rest is cutting it all. */
  lemma {:induction false} CutInTwo(first: string, second: string, max: nat)
    ensures var cut := CutFrames(first, max);
      CutFrames(first + second, max)
        == if cut.tooLarge then cut else Joined(cut.frames, CutFrames(cut.pending + second, max))
    decreases |first|
  {
    var newline := IndexOf(first, '\n');
    if newline.Some? {
      var k := newline.value + 1;
      FirstFrameStays(first, second);
      if k <= max {
        CutInTwo(first[k..], second, max);
        var cut := CutFrames(first[k..], max);
        JoinedTwice([first[..k]], cut.frames, CutFrames(cut.pending + second, max));
      }
    } else if |first| > max {
      TooLargeStays(first, second, max);
    } else {
      JoinedTwice([], [], CutFrames(first + second, max));
    }
  }

  /** Chunking independence: frames, pending bytes and failure are those of the whole stream. */
  lemma {:induction false} ChunkingDoesNotMatter(pending: string, chunks: seq<string>, max: nat)
    requires '\n' !in pending && |pending| <= max
    ensures CutChunks(pending, chunks, max) == CutFrames(pending + Concat(chunks), max)
    decreases |chunks|
  {
    if chunks == [] {
      assert pending + Concat(chunks) == pending;
      IndexOfIsFirst(pending, '\n');
    } else {
      var arrived := pending + chunks[0];
      assert pending + Concat(chunks) == arrived + Concat(chunks[1..]);
      CutInTwo(arrived, Concat(chunks[1..]), max);
      CutKeepsStream(arrived, max);
      var first := CutFrames(arrived, max);
      if !first.tooLarge {
        ChunkingDoesNotMatter(first.pending, chunks[1..], max);
      }
    }
  }

  /** Two ways to cut the same stream into writes cannot be told apart. */
  lemma AnyTwoChunkings(chunks: seq<string>, others: seq<string>, max: nat)
    requires Concat(chunks) == Concat(others)
    ensures CutChunks("", chunks, max) == CutChunks("", others, max)
  {
    ChunkingDoesNotMatter("", chunks, max);
    ChunkingDoesNotMatter("", others, max);
  }
}
