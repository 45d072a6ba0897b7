/** The parser accepts exactly the grammar, and reads back what was written. */
module FramingProofs {
  import opened Collections
  import opened Text
  import opened FramingModel

  /** A line is read back whole, whatever follows it. */
  lemma ReadLine(line: string, rest: string, limit: nat)
    requires IsLine(line) && |line| <= limit
    ensures HeaderLine(line + rest, limit) == Got(line, rest)
  {
    var before := line[..|line| - 1];
    assert line == before + ['\n'];
    assert line + rest == before + ['\n'] + rest;
    IndexOfFirst(before, '\n', rest);
  }

  lemma LineIsLine(stream: string, limit: nat)
    requires HeaderLine(stream, limit).Got?
    ensures var r := HeaderLine(stream, limit);
      IsLine(r.value) && |r.value| <= limit && stream == r.value + r.rest
  {
    var r := HeaderLine(stream, limit);
    var n := IndexOf(stream, '\n').value;
    IndexOfIsFirst(stream, '\n');
    assert r.value[..n] == stream[..n];
  }

  lemma ConcatSplit(lines: seq<string>, rest: string)
    requires lines != []
    ensures Concat(lines) + rest == lines[0] + (Concat(lines[1..]) + rest)
  {
  }

  lemma TailOfHeader(meaning: string -> Meaning, lines: seq<string>, room: int)
    requires IsHeader(meaning, lines, room) && !meaning(lines[0]).Blank?
    ensures IsHeader(meaning, lines[1..], room - |lines[0]|) && !meaning(lines[0]).Refused?
  {
    assert lines[1..][|lines| - 2] == lines[|lines| - 1];
  }

  lemma ConsHeader(meaning: string -> Meaning, line: string, others: seq<string>, room: int)
    requires IsLine(line) && |line| <= MAX_LINE && !meaning(line).Blank? && !meaning(line).Refused?
    requires IsHeader(meaning, others, room - |line|)
    ensures IsHeader(meaning, [line] + others, room)
  {
    var lines := [line] + others;
    assert lines[1..] == others;
    assert forall i :: 0 < i < |lines| ==> lines[i] == others[i - 1];
  }

  /** Reading a header takes one line and goes on as that line says. */
  lemma HeaderStep(meaning: string -> Meaning, line: string, after: string, known: Option<nat>, used: nat)
    requires IsLine(line) && |line| <= MAX_LINE && used + |line| <= MAX_HEADER && !meaning(line).Refused?
    ensures ReadHeader(meaning, line + after, known, used)
         == if meaning(line).Blank? then Got(known, after)
            else ReadHeader(meaning, after, Known(meaning(line), known), used + |line|)
  {
    ReadLine(line, after, MAX_LINE);
  }

  /** Every header of the grammar is read to its end, and declares what it says. */
  lemma {:induction false} HeaderIsRead(meaning: string -> Meaning, lines: seq<string>, rest: string,
                                        known: Option<nat>, used: nat)
    requires IsHeader(meaning, lines, MAX_HEADER - used)
    ensures ReadHeader(meaning, Concat(lines) + rest, known, used) == Got(Declared(meaning, lines, known), rest)
    decreases |lines|
  {
    var line, others, after := lines[0], lines[1..], Concat(lines[1..]) + rest;
    ConcatSplit(lines, rest);
    HeaderStep(meaning, line, after, known, used);
    if meaning(line).Blank? {
      assert others == [] && after == rest;
    } else {
      TailOfHeader(meaning, lines, MAX_HEADER - used);
      HeaderIsRead(meaning, others, rest, Known(meaning(line), known), used + |line|);
    }
  }

  lemma BlankIsHeader(meaning: string -> Meaning, line: string, room: int)
    requires IsLine(line) && |line| <= MAX_LINE && |line| <= room && meaning(line).Blank?
    ensures IsHeader(meaning, [line], room) && Concat([line]) == line
    ensures forall known :: Declared(meaning, [line], known) == known
  {
    assert [line][1..] == [];
  }

  /** A header that is read begins with a line, and unless that is blank it goes on as the line says. */
  lemma LineIsRead(meaning: string -> Meaning, stream: string, known: Option<nat>, used: nat)
    requires ReadHeader(meaning, stream, known, used).Got?
    ensures var line := HeaderLine(stream, MAX_LINE);
      && line.Got? && IsLine(line.value) && |line.value| <= MAX_LINE && used + |line.value| <= MAX_HEADER
      && stream == line.value + line.rest && !meaning(line.value).Refused?
      && ReadHeader(meaning, stream, known, used)
         == if meaning(line.value).Blank? then Got(known, line.rest)
            else ReadHeader(meaning, line.rest, Known(meaning(line.value), known), used + |line.value|)
  {
    LineIsLine(stream, MAX_LINE);
  }

  lemma ConsDeclares(meaning: string -> Meaning, line: string, others: seq<string>, known: Option<nat>, rest: string)
    requires others != []
    ensures Concat([line] + others) + rest == line + (Concat(others) + rest)
    ensures Declared(meaning, [line] + others, known) == Declared(meaning, others, Known(meaning(line), known))
  {
    var lines := [line] + others;
    assert lines[1..] == others;
    ConcatSplit(lines, rest);
  }

  /** Every header that is read is one of the grammar. */
  lemma {:induction false} ReadIsHeader(meaning: string -> Meaning, stream: string, known: Option<nat>, used: nat)
      returns (lines: seq<string>)
    requires ReadHeader(meaning, stream, known, used).Got?
    ensures var r := ReadHeader(meaning, stream, known, used);
      && IsHeader(meaning, lines, MAX_HEADER - used)
      && stream == Concat(lines) + r.rest
      && r.value == Declared(meaning, lines, known)
    decreases |stream|
  {
    var line := HeaderLine(stream, MAX_LINE);
    var r := ReadHeader(meaning, stream, known, used);
    LineIsRead(meaning, stream, known, used);
    if meaning(line.value).Blank? {
      lines := [line.value];
      BlankIsHeader(meaning, line.value, MAX_HEADER - used);
    } else {
      var others := ReadIsHeader(meaning, line.rest, Known(meaning(line.value), known), used + |line.value|);
      lines := [line.value] + others;
      ConsHeader(meaning, line.value, others, MAX_HEADER - used);
      ConsDeclares(meaning, line.value, others, known, r.rest);
    }
  }

  lemma MessageIsRead(meaning: string -> Meaning, lines: seq<string>, max: int, body: string, rest: string)
    requires IsHeader(meaning, lines, MAX_HEADER) && Declared(meaning, lines, None) == Some(|body|)
    requires |body| <= EffectiveMax(max)
    ensures ReadMessage(meaning, Concat(lines) + body + rest, max) == Got(body, rest)
  {
    assert Concat(lines) + body + rest == Concat(lines) + (body + rest);
    HeaderIsRead(meaning, lines, body + rest, None, 0);
  }

  lemma ReadIsMessage(meaning: string -> Meaning, stream: string, max: int)
    requires ReadMessage(meaning, stream, max).Got?
    ensures var r := ReadMessage(meaning, stream, max);
      && |r.rest| <= |stream| && r.rest == stream[|stream| - |r.rest|..]
      && IsMessage(meaning, stream[..|stream| - |r.rest|], max, r.value)
  {
    var r := ReadMessage(meaning, stream, max);
    var lines := ReadIsHeader(meaning, stream, None, 0);
    assert stream == Concat(lines) + r.value + r.rest;
    assert stream[..|stream| - |r.rest|] == Concat(lines) + r.value;
  }

  /**
   What is accepted, exactly: a header of the grammar whose last declared length is that of the
   body, and the body, within the limit. What follows is left untouched.
   */
  lemma AcceptsExactlyTheGrammar(stream: string, max: int, body: string, rest: string)
    ensures ReadFrame(stream, max) == Got(body, rest) <==>
      |rest| <= |stream| && rest == stream[|stream| - |rest|..]
        && IsMessage(MeaningOf, stream[..|stream| - |rest|], max, body)
  {
    MessageIff(MeaningOf, stream, max, body, rest);
  }

  lemma MessageIff(meaning: string -> Meaning, stream: string, max: int, body: string, rest: string)
    ensures ReadMessage(meaning, stream, max) == Got(body, rest) <==>
      |rest| <= |stream| && rest == stream[|stream| - |rest|..]
        && IsMessage(meaning, stream[..|stream| - |rest|], max, body)
  {
    if ReadMessage(meaning, stream, max) == Got(body, rest) {
      ReadIsMessage(meaning, stream, max);
    }
    if |rest| <= |stream| && rest == stream[|stream| - |rest|..]
      && IsMessage(meaning, stream[..|stream| - |rest|], max, body) {
      var lines :| IsHeader(meaning, lines, MAX_HEADER) && Declared(meaning, lines, None) == Some(|body|)
                   && stream[..|stream| - |rest|] == Concat(lines) + body;
      assert stream == Concat(lines) + body + rest;
      MessageIsRead(meaning, lines, max, body, rest);
    }
  }

  // ----- round trip -----

  function LengthLine(n: nat): string {
    CONTENT_LENGTH + ": " + Dec(n) + "\r\n"
  }

  lemma LengthLineText(n: nat)
    ensures Trim(LengthLine(n)) == CONTENT_LENGTH + ": " + Dec(n)
    ensures Trim(" " + Dec(n)) == Dec(n)
  {
    var digits := Dec(n);
    assert forall i :: 0 <= i < |digits| ==> IsDigit(digits[i]);
    var text := CONTENT_LENGTH + ": " + digits;
    assert "" + text + "\r\n" == LengthLine(n);
    TrimOf("", text, "\r\n");
    assert " " + digits + "" == " " + digits;
    TrimOf(" ", digits, "");
  }

  lemma LengthColon(digits: string)
    ensures var text := CONTENT_LENGTH + ": " + digits;
      && IndexOf(text, ':') == Some(14) && text[..14] == CONTENT_LENGTH && text[15..] == " " + digits
  {
    var text := CONTENT_LENGTH + ": " + digits;
    assert text == CONTENT_LENGTH + [':'] + (" " + digits);
    IndexOfFirst(CONTENT_LENGTH, ':', " " + digits);
  }

  lemma LengthLineDeclares(meaning: string -> Meaning, n: nat)
    requires n <= MAX_INT && meaning == MeaningOf
    ensures meaning(LengthLine(n)) == Declares(n)
  {
    LengthLineText(n);
    LengthColon(Dec(n));
    assert "" + CONTENT_LENGTH + "" == CONTENT_LENGTH;
    TrimOf("", CONTENT_LENGTH, "");
    AtoiOfDec(n);
  }

  lemma LengthLineIsLine(n: nat)
    requires n <= MAX_INT
    ensures IsLine(LengthLine(n)) && |LengthLine(n)| <= 37
  {
    var digits := Dec(n);
    assert forall i :: 0 <= i < |digits| ==> IsDigit(digits[i]);
    PrintedLength(n);
  }

  lemma EmptyLineIsBlank(meaning: string -> Meaning)
    requires meaning == MeaningOf
    ensures meaning("\r\n") == Blank && IsLine("\r\n")
  {
    assert "\r\n"[1..] == "\n" && "\n"[1..] == "";
  }

  /** A length line and an empty line form a header, whatever the reading of the two. */
  lemma TwoLineHeader(meaning: string -> Meaning, line: string, blank: string, n: nat)
    requires IsLine(line) && IsLine(blank) && |line| <= 37 && |blank| <= 2
    requires meaning(line) == Declares(n) && meaning(blank) == Blank
    ensures IsHeader(meaning, [line, blank], MAX_HEADER)
    ensures Declared(meaning, [line, blank], None) == Some(n)
    ensures Concat([line, blank]) == line + blank
  {
    var lines := [line, blank];
    assert lines[1..] == [blank] && lines[1..][1..] == [];
    assert Concat(lines[1..]) == blank;
    assert Declared(meaning, lines[1..], Some(n)) == Declared(meaning, [], Some(n));
  }

  /** A length line, an empty line and a body of that length are read as the body, whatever the reading of the lines. */
  lemma TwoLineMessage(meaning: string -> Meaning, line: string, blank: string, body: string, rest: string, max: int)
    requires IsLine(line) && IsLine(blank) && |line| <= 37 && |blank| <= 2 && |body| <= EffectiveMax(max)
    requires meaning(line) == Declares(|body|) && meaning(blank) == Blank
    ensures ReadMessage(meaning, line + blank + body + rest, max) == Got(body, rest)
  {
    TwoLineHeader(meaning, line, blank, |body|);
    MessageIsRead(meaning, [line, blank], max, body, rest);
  }

  lemma FrameIsRead(meaning: string -> Meaning, body: string, rest: string, max: int)
    requires |body| <= EffectiveMax(max) && |body| <= MAX_INT
    requires meaning(LengthLine(|body|)) == Declares(|body|) && meaning("\r\n") == Blank
    ensures ReadMessage(meaning, Frame(body) + rest, max) == Got(body, rest)
  {
    var line, blank := LengthLine(|body|), "\r\n";
    LengthLineIsLine(|body|);
    TwoLineMessage(meaning, line, blank, body, rest, max);
    assert Frame(body) + rest == line + blank + body + rest;
  }

  /** One written frame is read back and nothing after it is touched. */
  lemma FrameRoundTrip(body: string, rest: string, max: int)
    requires |body| <= EffectiveMax(max) && |body| <= MAX_INT
    ensures ReadFrame(Frame(body) + rest, max) == Got(body, rest)
  {
    LengthLineDeclares(MeaningOf, |body|);
    EmptyLineIsBlank(MeaningOf);
    FrameIsRead(MeaningOf, body, rest, max);
  }

  /** Any sequence of written frames is read back, in order, consuming exactly what was written. */
  lemma {:induction false} FramesRoundTrip(bodies: seq<string>, rest: string, max: int)
    requires forall i :: 0 <= i < |bodies| ==> |bodies[i]| <= EffectiveMax(max) && |bodies[i]| <= MAX_INT
    ensures ReadFrames(Frames(bodies) + rest, max, |bodies|) == Got(bodies, rest)
  {
    if bodies == [] {
      assert Frames(bodies) + rest == rest;
    } else {
      assert Frames(bodies) + rest == Frame(bodies[0]) + (Frames(bodies[1..]) + rest);
      FrameRoundTrip(bodies[0], Frames(bodies[1..]) + rest, max);
      FramesRoundTrip(bodies[1..], rest, max);
      assert bodies == [bodies[0]] + bodies[1..];
    }
  }

  /** Streams of frames are uniquely decodable. */
  lemma {:induction false} FramesAreUnambiguous(first: seq<string>, second: seq<string>)
    requires Frames(first) == Frames(second)
    requires forall i :: 0 <= i < |first| ==> |first[i]| <= MAX_INT
    requires forall i :: 0 <= i < |second| ==> |second[i]| <= MAX_INT
    ensures first == second
    decreases |first|
  {
    if first != [] && second != [] {
      FrameRoundTrip(first[0], Frames(first[1..]), MAX_INT);
      FrameRoundTrip(second[0], Frames(second[1..]), MAX_INT);
      FramesAreUnambiguous(first[1..], second[1..]);
      assert first == [first[0]] + first[1..];
      assert second == [second[0]] + second[1..];
    }
  }
}
