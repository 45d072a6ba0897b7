/**
 Newline-terminated frames of bounded length: what a stream's frames are, independently of how
 the stream is cut into writes.
 */
module StdioModel {
  import opened Collections
  import opened Text

  // The frames cut off the front of a stream, what is left of it, and whether the next frame is too large.
  datatype Cut = Cut(frames: seq<string>, pending: string, tooLarge: bool)

  /** The same cut with some frames before it. */
  function Joined(frames: seq<string>, cut: Cut): Cut {
    cut.(frames := frames + cut.frames)
  }

  /** Cut frames off a stream until no newline is left or a frame exceeds the limit. */
  function CutFrames(stream: string, max: nat): Cut
    decreases |stream|
  {
    var newline := IndexOf(stream, '\n');
    if newline.None? then
      if |stream| > max then Cut([], "", true) else Cut([], stream, false)
    else if newline.value + 1 > max then Cut([], "", true)
    else
      Joined([stream[..newline.value + 1]], CutFrames(stream[newline.value + 1..], max))
  }

  /** A stream arriving in chunks, each appended to what was pending, until one fails. */
  function CutChunks(pending: string, chunks: seq<string>, max: nat): Cut
    decreases |chunks|
  {
    if chunks == [] then Cut([], pending, false)
    else
      var first := CutFrames(pending + chunks[0], max);
      if first.tooLarge then first
      else
        Joined(first.frames, CutChunks(first.pending, chunks[1..], max))
  }

  /** A frame of at most the limit starts at i: more than that many bytes follow without a newline. */
  predicate OverlongAt(stream: string, i: nat, max: nat) {
    && i + max < |stream|
    && (i == 0 || stream[i - 1] == '\n')
    && '\n' !in stream[i..i + max]
  }

  ghost predicate IsOverlong(stream: string, max: nat) {
    exists i: nat :: OverlongAt(stream, i, max)
  }
}
