/** What single header lines say, what the limit means, and what becomes of messages that are not accepted. */
module FramingLines {
  import opened Collections
  import opened Text
  import opened FramingModel
  import opened FramingProofs

  // ----- trimming and numbers -----

  predicate Trimmed(s: string) {
    s == "" || (!IsSpace(s[0]) && !IsSpace(s[|s| - 1]))
  }

  lemma {:induction false} TrimLeftSplits(s: string) returns (left: string)
    ensures AllSpace(left) && s == left + TrimLeft(s) && (TrimLeft(s) == "" || !IsSpace(TrimLeft(s)[0]))
    decreases |s|
  {
    if s != "" && IsSpace(s[0]) {
      var rest := TrimLeftSplits(s[1..]);
      left := [s[0]] + rest;
    } else {
      left := "";
    }
  }

  lemma {:induction false} TrimRightSplits(s: string) returns (right: string)
    ensures AllSpace(right) && s == TrimRight(s) + right
    ensures TrimRight(s) == "" || !IsSpace(TrimRight(s)[|TrimRight(s)| - 1])
    decreases |s|
  {
    var n := |s| - 1;
    if s != "" && IsSpace(s[n]) {
      var rest := TrimRightSplits(s[..n]);
      right := rest + [s[n]];
    } else {
      right := "";
    }
  }

  /** Trimming takes exactly the white space off both ends. */
  lemma TrimSplits(s: string) returns (left: string, right: string)
    ensures AllSpace(left) && AllSpace(right) && s == left + Trim(s) + right && Trimmed(Trim(s))
  {
    left := TrimLeftSplits(s);
    right := TrimRightSplits(TrimLeft(s));
    assert s == left + (Trim(s) + right);
    if Trim(s) != "" { assert TrimLeft(s)[0] == Trim(s)[0]; }
  }

  /** Nothing else is what is left. */
  lemma TrimIs(left: string, s: string, right: string)
    requires AllSpace(left) && AllSpace(right) && Trimmed(s)
    ensures Trim(left + s + right) == s
  {
    if s == "" {
      SpacesTrim(left + s + right);
    } else {
      TrimOf(left, s, right);
    }
  }

  lemma SpacesTrim(s: string)
    ensures AllSpace(s) <==> Trim(s) == ""
  {
    var left, right := TrimSplits(s);
    assert Trim(s) == "" ==> s == left + right;
    if AllSpace(s) {
      assert s + "" == s;
      TrimLeftOf(s, "");
    }
  }

  /** A number is an optional sign and digits, within 64 bits. */
  ghost predicate IsNumber(s: string, n: int) {
    -MAX_INT - 1 <= n <= MAX_INT &&
    exists sign, digits ::
      && s == sign + digits && sign in {"", "+", "-"} && digits != "" && AllDigits(digits)
      && n == if sign == "-" then 0 - NatOf(digits) else NatOf(digits)
  }

  lemma NumbersAreParsed(s: string, n: int)
    ensures Atoi(s) == Some(n) <==> IsNumber(s, n)
  {
    if Atoi(s) == Some(n) { ParsedIsNumber(s, n); }
    if IsNumber(s, n) {
      var sign, digits :|
        && s == sign + digits && sign in {"", "+", "-"} && digits != "" && AllDigits(digits)
        && n == if sign == "-" then 0 - NatOf(digits) else NatOf(digits);
      NumberIsParsed(sign, digits);
    }
  }

  lemma ParsedIsNumber(s: string, n: int)
    requires Atoi(s) == Some(n)
    ensures IsNumber(s, n)
  {
    var signed := s[0] == '+' || s[0] == '-';
    var sign := if s[0] == '+' then "+" else if s[0] == '-' then "-" else "";
    var digits := if signed then s[1..] else s;
    assert s == sign + digits && AllDigits(digits);
  }

  lemma NumberIsParsed(sign: string, digits: string)
    requires sign in {"", "+", "-"} && digits != "" && AllDigits(digits)
    ensures var n := if sign == "-" then 0 - NatOf(digits) else NatOf(digits) as int;
      Atoi(sign + digits) == if -MAX_INT - 1 <= n <= MAX_INT then Some(n) else None
  {
    if sign == "" {
      assert IsDigit(digits[0]) && sign + digits == digits;
    } else {
      SignedIsParsed(sign[0], digits);
      assert sign + digits == [sign[0]] + digits;
    }
  }

  lemma SignedIsParsed(sign: char, digits: string)
    requires sign in {'+', '-'} && digits != "" && AllDigits(digits)
    ensures var n := if sign == '-' then 0 - NatOf(digits) else NatOf(digits) as int;
      Atoi([sign] + digits) == if -MAX_INT - 1 <= n <= MAX_INT then Some(n) else None
  {
    var s := [sign] + digits;
    assert s[0] == sign && s[1..] == digits;
  }

  // ----- header lines -----

  /** A header field: a name and a value around the first colon, white space aside. */
  ghost predicate IsField(line: string, name: string, value: string) {
    exists c :: 0 <= c < |line| && line[c] == ':' && ':' !in line[..c]
                && name == Trim(line[..c]) && value == Trim(line[c + 1..])
  }

  lemma ColonOfTrimmed(left: string, text: string, right: string)
    requires AllSpace(left) && AllSpace(right)
    ensures var line := left + text + right; var colon := IndexOf(text, ':');
      && (colon.None? <==> ':' !in line)
      && (colon.Some? ==>
            var c := |left| + colon.value;
            && c < |line| && line[c] == ':' && ':' !in line[..c]
            && line[..c] == left + text[..colon.value] && line[c + 1..] == text[colon.value + 1..] + right)
  {
    var line := left + text + right;
    IndexOfIsFirst(text, ':');
    assert !IsSpace(':');
    assert forall c :: c in line ==> c in left || c in text || c in right;
    assert forall c :: c in text ==> c in line;
    var colon := IndexOf(text, ':');
    if colon.Some? {
      var c := |left| + colon.value;
      assert line[c] == text[colon.value];
      assert line[..c] == left + text[..colon.value];
      assert line[c + 1..] == text[colon.value + 1..] + right;
    }
  }

  lemma TrimLeftPart(left: string, s: string)
    requires AllSpace(left)
    ensures Trim(left + s) == Trim(s)
  {
    var l, r := TrimSplits(s);
    assert left + s == (left + l) + Trim(s) + r;
    TrimIs(left + l, Trim(s), r);
  }

  lemma TrimRightPart(s: string, right: string)
    requires AllSpace(right)
    ensures Trim(s + right) == Trim(s)
  {
    var l, r := TrimSplits(s);
    assert s + right == l + Trim(s) + (r + right);
    TrimIs(l, Trim(s), r + right);
  }

  /** What a line says, by its name and value. */
  function Says(name: string, value: string): Meaning {
    if !SameLetters(name, "Content-Length") then Ignored
    else
      var length := Atoi(value);
      if length.Some? && length.value >= 0 then Declares(length.value) else Refused(BadLength)
  }

  /**
   What a line says: nothing if it is blank; it is no header without a colon; any field but
   Content-Length, however its letters are cased, is ignored; and that declares a length if its value is a
   number that is not negative, and is refused otherwise.
   */
  lemma LinesSay(line: string)
    ensures MeaningOf(line) == Blank <==> AllSpace(line)
    ensures MeaningOf(line) == Refused(NotAHeader) <==> !AllSpace(line) && ':' !in line
    ensures forall name, value :: IsField(line, name, value) ==> MeaningOf(line) == Says(name, value)
  {
    var left, right := TrimSplits(line);
    var text := Trim(line);
    SpacesTrim(line);
    ColonOfTrimmed(left, text, right);
    if ':' in line { assert !IsSpace(':'); }
    forall name, value | IsField(line, name, value) ensures MeaningOf(line) == Says(name, value) {
      FieldSays(line, left, right, name, value);
    }
  }

  lemma FieldSays(line: string, left: string, right: string, name: string, value: string)
    requires AllSpace(left) && AllSpace(right) && line == left + Trim(line) + right
    requires IsField(line, name, value)
    ensures MeaningOf(line) == Says(name, value)
  {
    var c :| 0 <= c < |line| && line[c] == ':' && ':' !in line[..c]
             && name == Trim(line[..c]) && value == Trim(line[c + 1..]);
    var colon := PartsOfText(left, Trim(line), right, c);
    TextSays(line, Trim(line), colon);
  }

  /** White space around a text does not matter to what stands before and after its colon. */
  lemma PartsOfText(left: string, text: string, right: string, c: nat) returns (colon: nat)
    requires AllSpace(left) && AllSpace(right)
    requires var line := left + text + right; c < |line| && line[c] == ':' && ':' !in line[..c]
    ensures var line := left + text + right;
      && IndexOf(text, ':') == Some(colon) && colon < |text|
      && Trim(text[..colon]) == Trim(line[..c]) && Trim(text[colon + 1..]) == Trim(line[c + 1..])
  {
    ColonOfTrimmed(left, text, right);
    colon := IndexOf(text, ':').value;
    SameColon(left + text + right, c, |left| + colon);
    TrimLeftPart(left, text[..colon]);
    TrimRightPart(text[colon + 1..], right);
  }

  lemma TextSays(line: string, text: string, colon: nat)
    requires text == Trim(line) && IndexOf(text, ':') == Some(colon)
    ensures MeaningOf(line) == Says(Trim(text[..colon]), Trim(text[colon + 1..]))
  {
    FoldingIgnoresCase(Trim(text[..colon]), CONTENT_LENGTH);
  }

  lemma SameColon(line: string, c: nat, d: nat)
    requires c < |line| && d < |line| && line[c] == ':' && line[d] == ':'
    requires ':' !in line[..c] && ':' !in line[..d]
    ensures c == d
  {
    FirstColon(line, c);
    FirstColon(line, d);
  }

  lemma FirstColon(line: string, c: nat)
    requires c < |line| && line[c] == ':' && ':' !in line[..c]
    ensures IndexOf(line, ':') == Some(c)
  {
    assert line == line[..c] + [':'] + line[c + 1..];
    IndexOfFirst(line[..c], ':', line[c + 1..]);
  }

  // ----- the limit, and messages that are refused -----

  /** A frame is written as the protocol prescribes. */
  lemma AFrame()
    ensures Frame("{}") == "Content-Length: 2\r\n\r\n{}"
  {
    assert Dec(2) == "2";
  }

  /** A header within its limits: 8 KiB for a line, 32 KiB for all. */
  predicate WithinLimits(lines: seq<string>) {
    && |Concat(lines)| <= 32_768
    && (forall i :: 0 <= i < |lines| ==> IsLine(lines[i]) && |lines[i]| <= 8_192)
  }

  predicate IsWhole(lines: seq<string>) {
    && lines != [] && MeaningOf(lines[|lines| - 1]).Blank?
    && (forall i :: 0 <= i < |lines| - 1 ==> MeaningOf(lines[i]).Ignored? || MeaningOf(lines[i]).Declares?)
  }

  /** A whole header within its limits decides what becomes of its message. */
  lemma HeadersDecide(lines: seq<string>, rest: string, max: int)
    requires WithinLimits(lines) && IsWhole(lines)
    ensures var declared := Declared(MeaningOf, lines, None); var limit := if max > 0 then max else 8_388_608;
      ReadFrame(Concat(lines) + rest, max) ==
        if declared.None? then Failed(MissingLength)
        else if declared.value > limit then Failed(TooLarge)
        else if declared.value > |rest| then Failed(Ended)
        else Got(rest[..declared.value], rest[declared.value..])
  {
    HeaderIsRead(MeaningOf, lines, rest, None, 0);
  }

  /** The length that counts is the one declared last. */
  lemma {:induction false} LastDeclarationCounts(meaning: string -> Meaning, lines: seq<string>, known: Option<nat>)
    ensures var declared := Declared(meaning, lines, known);
      && ((forall i :: 0 <= i < |lines| ==> !meaning(lines[i]).Declares?) ==> declared == known)
      && (forall i :: 0 <= i < |lines| && meaning(lines[i]).Declares?
                      && (forall j :: i < j < |lines| ==> !meaning(lines[j]).Declares?)
            ==> declared == Some(meaning(lines[i]).length))
    decreases |lines|
  {
    if lines != [] {
      LastDeclarationCounts(meaning, lines[1..], Known(meaning(lines[0]), known));
      assert forall i :: 0 < i < |lines| ==> lines[i] == lines[1..][i - 1];
    }
  }

  /** A line or a header beyond its limit is refused, whatever follows. */
  lemma TooLongIsRefused(meaning: string -> Meaning, lines: seq<string>, long: string, known: Option<nat>)
    requires forall line :: line in lines ==> Passes(meaning, line)
    requires |Concat(lines)| <= 32_768
    requires || (|long| > 8_192 && '\n' !in long[..8_192])
             || exists n :: 0 < n <= 8_192 && n <= |long| && |Concat(lines)| + n > 32_768 && IsLine(long[..n])
    ensures ReadHeader(meaning, Concat(lines) + long, known, 0) == Failed(TooLarge)
  {
    var total := |Concat(lines)|;
    forall known' ensures ReadHeader(meaning, long, known', total) == Failed(TooLarge) {
      TooLongEnds(meaning, long, known', total);
    }
    ErrorAfterLines(meaning, lines, Concat(lines) + long, long, known, 0, total, TooLarge);
  }

  lemma TooLongEnds(meaning: string -> Meaning, long: string, known: Option<nat>, used: nat)
    requires || (|long| > 8_192 && '\n' !in long[..8_192])
             || exists n :: 0 < n <= 8_192 && n <= |long| && used + n > 32_768 && IsLine(long[..n])
    ensures ReadHeader(meaning, long, known, used) == Failed(TooLarge)
  {
    if n :| 0 < n <= 8_192 && n <= |long| && used + n > 32_768 && IsLine(long[..n]) {
      assert long == long[..n] + long[n..];
      ReadLine(long[..n], long[n..], MAX_LINE);
    } else {
      IndexOfIsFirst(long, '\n');
    }
  }

  /** A line that is refused ends the message with its error, whatever follows. */
  lemma RefusedLinesEnd(meaning: string -> Meaning, lines: seq<string>, bad: string, rest: string,
                        known: Option<nat>, used: nat)
    requires IsLine(bad) && |bad| <= MAX_LINE && meaning(bad).Refused?
    requires forall line :: line in lines ==> Passes(meaning, line)
    requires used + |Concat(lines)| + |bad| <= MAX_HEADER
    ensures ReadHeader(meaning, Concat(lines) + (bad + rest), known, used) == Failed(meaning(bad).error)
  {
    var after, total := bad + rest, used + |Concat(lines)|;
    forall known' ensures ReadHeader(meaning, after, known', total) == Failed(meaning(bad).error) {
      RefusedLineEnds(meaning, bad, rest, known', total);
    }
    ErrorAfterLines(meaning, lines, Concat(lines) + after, after, known, used, total, meaning(bad).error);
  }

  /** The stream begins with these lines, after each of which the header goes on. */
  ghost predicate Leads(meaning: string -> Meaning, lines: seq<string>, stream: string, after: string,
                        used: nat, total: nat)
  {
    && (forall line :: line in lines ==> Passes(meaning, line))
    && stream == Concat(lines) + after && total == used + |Concat(lines)| && total <= MAX_HEADER
  }

  /** Such lines are read one after the other, up to an error. */
  lemma {:induction false} ErrorAfterLines(meaning: string -> Meaning, lines: seq<string>, stream: string,
                                           after: string, known: Option<nat>, used: nat, total: nat, error: ReadError)
    requires Leads(meaning, lines, stream, after, used, total)
    requires forall known' :: ReadHeader(meaning, after, known', total) == Failed(error)
    ensures ReadHeader(meaning, stream, known, used) == Failed(error)
    decreases |lines|
  {
    if lines == [] {
      NoLineLeads(meaning, stream, after, used, total);
    } else {
      var rest := FirstIsPassed(meaning, lines, stream, after, known, used, total);
      ErrorAfterLines(meaning, lines[1..], rest, after, Known(meaning(lines[0]), known), used + |lines[0]|, total,
                      error);
    }
  }

  lemma NoLineLeads(meaning: string -> Meaning, stream: string, after: string, used: nat, total: nat)
    requires Leads(meaning, [], stream, after, used, total)
    ensures stream == after && used == total
  {
  }

  lemma FirstIsPassed(meaning: string -> Meaning, lines: seq<string>, stream: string, after: string,
                      known: Option<nat>, used: nat, total: nat) returns (rest: string)
    requires lines != [] && Leads(meaning, lines, stream, after, used, total)
    ensures Leads(meaning, lines[1..], rest, after, used + |lines[0]|, total)
    ensures ReadHeader(meaning, stream, known, used)
         == ReadHeader(meaning, rest, Known(meaning(lines[0]), known), used + |lines[0]|)
  {
    rest := Concat(lines[1..]) + after;
    assert lines[0] in lines && stream == lines[0] + rest;
    FieldIsPassed(meaning, lines[0], rest, known, used);
  }

  /** A line after which the header goes on. */
  ghost predicate Passes(meaning: string -> Meaning, line: string) {
    IsLine(line) && |line| <= MAX_LINE && (meaning(line).Ignored? || meaning(line).Declares?)
  }

  lemma FieldIsPassed(meaning: string -> Meaning, line: string, after: string, known: Option<nat>, used: nat)
    requires Passes(meaning, line) && used + |line| <= MAX_HEADER
    ensures ReadHeader(meaning, line + after, known, used)
         == ReadHeader(meaning, after, Known(meaning(line), known), used + |line|)
  {
    HeaderStep(meaning, line, after, known, used);
  }

  lemma RefusedLineEnds(meaning: string -> Meaning, bad: string, rest: string, known: Option<nat>, used: nat)
    requires IsLine(bad) && |bad| <= MAX_LINE && meaning(bad).Refused? && used + |bad| <= MAX_HEADER
    ensures ReadHeader(meaning, bad + rest, known, used) == Failed(meaning(bad).error)
  {
    ReadLine(bad, rest, MAX_LINE);
  }

  /** What a first line decides about the header. */
  lemma HeaderOfLine(meaning: string -> Meaning, stream: string, line: Read<string>, known: Option<nat>, used: nat)
    requires HeaderLine(stream, MAX_LINE) == line
    ensures ReadHeader(meaning, stream, known, used) ==
      if line.Failed? then Failed(line.error)
      else if used + |line.value| > MAX_HEADER then Failed(TooLarge)
      else if meaning(line.value).Blank? then Got(known, line.rest)
      else if meaning(line.value).Refused? then Failed(meaning(line.value).error)
      else ReadHeader(meaning, line.rest, Known(meaning(line.value), known), used + |line.value|)
  {
  }

  predicate StaysAs(before: Read<Option<nat>>, after: Read<Option<nat>>, more: string) {
    match before
    case Got(value, rest) => after == Got(value, rest + more)
    case Failed(error) => error == Ended || after == before
  }

  lemma {:induction false} HeaderErrorsStay(meaning: string -> Meaning, stream: string, more: string,
                                            known: Option<nat>, used: nat)
    ensures StaysAs(ReadHeader(meaning, stream, known, used), ReadHeader(meaning, stream + more, known, used), more)
    decreases |stream|
  {
    LineStays(stream, more, MAX_LINE);
    var line := HeaderLine(stream, MAX_LINE);
    if line.Failed? {
      FailureStays(meaning, stream, more, known, used);
    } else {
      if GoesOn(meaning, line.value, used) {
        HeaderErrorsStay(meaning, line.rest, more, Known(meaning(line.value), known), used + |line.value|);
      }
      FirstLineStays(meaning, stream, more, line.value, line.rest, known, used);
    }
  }

  /** After this line another one is read. */
  predicate GoesOn(meaning: string -> Meaning, line: string, used: nat) {
    used + |line| <= MAX_HEADER && !meaning(line).Blank? && !meaning(line).Refused?
  }

  lemma FailureStays(meaning: string -> Meaning, stream: string, more: string, known: Option<nat>, used: nat)
    requires HeaderLine(stream, MAX_LINE).Failed?
    ensures StaysAs(ReadHeader(meaning, stream, known, used), ReadHeader(meaning, stream + more, known, used), more)
  {
    LineStays(stream, more, MAX_LINE);
    HeaderOfLine(meaning, stream, HeaderLine(stream, MAX_LINE), known, used);
    HeaderOfLine(meaning, stream + more, HeaderLine(stream + more, MAX_LINE), known, used);
  }

  lemma FirstLineStays(meaning: string -> Meaning, stream: string, more: string, line: string, rest: string,
                       known: Option<nat>, used: nat)
    requires HeaderLine(stream, MAX_LINE) == Got(line, rest)
    requires HeaderLine(stream + more, MAX_LINE) == Got(line, rest + more)
    requires GoesOn(meaning, line, used) ==>
      var known', used' := Known(meaning(line), known), used + |line|;
      StaysAs(ReadHeader(meaning, rest, known', used'), ReadHeader(meaning, rest + more, known', used'), more)
    ensures StaysAs(ReadHeader(meaning, stream, known, used), ReadHeader(meaning, stream + more, known, used), more)
  {
    HeaderOfLine(meaning, stream, Got(line, rest), known, used);
    HeaderOfLine(meaning, stream + more, Got(line, rest + more), known, used);
  }

  lemma LineStays(stream: string, more: string, limit: nat)
    ensures var line := HeaderLine(stream, limit);
      && (line.Got? ==> HeaderLine(stream + more, limit) == Got(line.value, line.rest + more))
      && (line == Failed(TooLarge) ==> HeaderLine(stream + more, limit) == line)
      && (line.Failed? ==> line.error in {TooLarge, Ended})
  {
    var newline := IndexOf(stream, '\n');
    IndexOfIsFirst(stream, '\n');
    if newline.Some? {
      var n := newline.value;
      assert stream + more == stream[..n] + ['\n'] + (stream[n + 1..] + more);
      IndexOfFirst(stream[..n], '\n', stream[n + 1..] + more);
      assert (stream + more)[..n + 1] == stream[..n + 1] && (stream + more)[n + 1..] == stream[n + 1..] + more;
    } else {
      var both := stream + more;
      IndexOfIsFirst(both, '\n');
      assert forall i :: 0 <= i < |stream| ==> both[i] == stream[i];
    }
  }

  /** Every error but an early end is final: no more bytes change it. And what has been read stays read. */
  lemma ErrorsAreFinal(stream: string, more: string, max: int)
    ensures var r := ReadFrame(stream, max);
      && (r.Got? ==> ReadFrame(stream + more, max) == Got(r.value, r.rest + more))
      && (r.Failed? && r.error != Ended ==> ReadFrame(stream + more, max) == r)
  {
    HeaderErrorsStay(MeaningOf, stream, more, None, 0);
    var header := ReadHeader(MeaningOf, stream, None, 0);
    if header.Got? && header.value.Some? && header.value.value <= |header.rest| {
      var n, rest := header.value.value, header.rest;
      assert (rest + more)[..n] == rest[..n] && (rest + more)[n..] == rest[n..] + more;
    }
  }
}
