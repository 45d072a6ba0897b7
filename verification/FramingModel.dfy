/**
 The framing clangd and its client speak: a header of lines, one of which declares the length of
 the body, an empty line, the body. What a reader accepts is given twice: as the parser, and as
 the grammar of whole messages.
 */
module FramingModel {
  import opened Collections
  import opened Text

  const DEFAULT_MAX_MESSAGE := 8 * 1024 * 1024
  const MAX_HEADER := 32 * 1024
  const MAX_LINE := 8 * 1024
  const CONTENT_LENGTH := "Content-Length"

  // Ended stands for whatever error ends the stream, an early end of file included.
  datatype ReadError = TooLarge | Ended | NotAHeader | BadLength | MissingLength

  datatype Read<T> = Got(value: T, rest: string) | Failed(error: ReadError)

  /** A limit that is not positive means the default. */
  function EffectiveMax(max: int): nat {
    if max <= 0 then DEFAULT_MAX_MESSAGE else max
  }

  function Frame(body: string): string {
    CONTENT_LENGTH + ": " + Dec(|body|) + "\r\n\r\n" + body
  }

  function Frames(bodies: seq<string>): string {
    if bodies == [] then "" else Frame(bodies[0]) + Frames(bodies[1..])
  }

  /** The next line with its newline, unless that is more than the limit or the stream ends first. */
  function HeaderLine(stream: string, limit: nat): Read<string> {
    var newline := IndexOf(stream, '\n');
    if newline.Some? && newline.value + 1 <= limit then Got(stream[..newline.value + 1], stream[newline.value + 1..])
    else if |stream| > limit then Failed(TooLarge)
    else Failed(Ended)
  }

  // What one header line says.
  datatype Meaning = Blank | Declares(length: nat) | Ignored | Refused(error: ReadError)

  function MeaningOf(line: string): Meaning {
    var text := Trim(line);
    if text == "" then Blank
    else
      var colon := IndexOf(text, ':');
      if colon.None? then Refused(NotAHeader)
      else if Fold(Trim(text[..colon.value])) != Fold(CONTENT_LENGTH) then Ignored
      else
        var length := Atoi(Trim(text[colon.value + 1..]));
        if length.None? || length.value < 0 then Refused(BadLength) else Declares(length.value)
  }

  /** Header lines up to and including the blank one; the last declared length counts. */
  function ReadHeader(meaning: string -> Meaning, stream: string, length: Option<nat>, used: nat): Read<Option<nat>>
    decreases |stream|
  {
    var line := HeaderLine(stream, MAX_LINE);
    if line.Failed? then Failed(line.error)
    else if used + |line.value| > MAX_HEADER then Failed(TooLarge)
    else
      match meaning(line.value)
      case Blank => Got(length, line.rest)
      case Refused(error) => Failed(error)
      case _ => ReadHeader(meaning, line.rest, Known(meaning(line.value), length), used + |line.value|)
  }

  function ReadBody(stream: string, length: nat): Read<string> {
    if length <= |stream| then Got(stream[..length], stream[length..]) else Failed(Ended)
  }

  function ReadFrame(stream: string, max: int): Read<string> {
    ReadMessage(MeaningOf, stream, max)
  }

  /** A message, given what its header lines say. */
  function ReadMessage(meaning: string -> Meaning, stream: string, max: int): Read<string> {
    var header := ReadHeader(meaning, stream, None, 0);
    if header.Failed? then Failed(header.error)
    else if header.value.None? then Failed(MissingLength)
    else if header.value.value > EffectiveMax(max) then Failed(TooLarge)
    else ReadBody(header.rest, header.value.value)
  }

  /** As many frames as asked for, one after the other. */
  function ReadFrames(stream: string, max: int, count: nat): Read<seq<string>>
    decreases count
  {
    if count == 0 then Got([], stream)
    else
      var first := ReadFrame(stream, max);
      if first.Failed? then Failed(first.error)
      else
        var others := ReadFrames(first.rest, max, count - 1);
        if others.Failed? then others else Got([first.value] + others.value, others.rest)
  }

  // ----- the grammar of a message -----

  function Known(meaning: Meaning, known: Option<nat>): Option<nat> {
    if meaning.Declares? then Some(meaning.length) else known
  }

  /** The length the last length header declares, or the one known before. */
  function Declared(meaning: string -> Meaning, lines: seq<string>, known: Option<nat>): Option<nat> {
    if lines == [] then known
    else
      Declared(meaning, lines[1..], Known(meaning(lines[0]), known))
  }

  /** Well-formed header lines within their limits, ended by the only blank one. */
  predicate IsHeader(meaning: string -> Meaning, lines: seq<string>, room: int) {
    && lines != []
    && |Concat(lines)| <= room
    && (forall i :: 0 <= i < |lines| ==> IsLine(lines[i]) && |lines[i]| <= MAX_LINE)
    && (forall i :: 0 <= i < |lines| - 1 ==> meaning(lines[i]).Ignored? || meaning(lines[i]).Declares?)
    && meaning(lines[|lines| - 1]).Blank?
  }

  /** A whole message: a header that declares the body's length, and a body within the limit. */
  ghost predicate IsMessage(meaning: string -> Meaning, text: string, max: int, body: string) {
    && |body| <= EffectiveMax(max)
    && exists lines :: IsHeader(meaning, lines, MAX_HEADER) && Declared(meaning, lines, None) == Some(|body|)
                       && text == Concat(lines) + body
  }
}
