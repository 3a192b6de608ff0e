/** The parsers on raw bytes: what section 9.2.6 of the HTML Standard says of comments, fields and line ends. */
module SseBytes {
  import opened Common
  import opened Utf8
  import opened Sse
  import opened SseTheorems

  // -------------------------------------------------------------------------
  // One line, byte by byte
  // -------------------------------------------------------------------------

  // Without the carriage return of a CRLF.
  function Content(raw: bytes): bytes {
    if raw != [] && raw[|raw| - 1] == 13 then raw[..|raw| - 1] else raw
  }

  predicate IsData(line: bytes) {
    |line| >= 5 && line[0] == 100 && line[1] == 97 && line[2] == 116 && line[3] == 97 && line[4] == 58
  }

  predicate IsEvent(line: bytes) {
    && |line| >= 6 && line[0] == 101 && line[1] == 118 && line[2] == 101 && line[3] == 110 && line[4] == 116
    && line[5] == 58
  }

  // The value behind the colon and at most one space.
  function Value(line: bytes, n: nat): bytes
    requires n <= |line|
  {
    if n < |line| && line[n] == 32 then line[n + 1..] else line[n..]
  }

  lemma Prefixes(line: bytes)
    ensures DATA <= line <==> IsData(line)
    ensures EVENT <= line <==> IsEvent(line)
  {
  }

  lemma ValueIsTrimmed(line: bytes, n: nat)
    requires n <= |line|
    ensures TrimSpace(line[n..]) == Value(line, n)
  {
  }

  // A line is a field that does not decode.
  predicate Undecodable(typed: bool, raw: bytes) {
    var line := Content(raw);
    (typed && IsEvent(line) && !Valid(Value(line, 6))) || (IsData(line) && !Valid(Value(line, 5)))
  }

  // A line that says nothing: a comment or an unknown field, the event type included if types are not read.
  predicate Silent(typed: bool, raw: bytes) {
    var line := Content(raw);
    line != [] && !IsData(line) && !(typed && IsEvent(line))
  }

  lemma LineByBytes(typed: bool, raw: bytes)
    ensures Classify(typed, raw).Blank? <==> Content(raw) == []
    ensures Classify(typed, raw).Bad? <==> Undecodable(typed, raw)
    ensures Silent(typed, raw) ==> Classify(typed, raw) == Skip
    ensures typed && IsEvent(Content(raw)) && !Undecodable(typed, raw) ==>
              Classify(typed, raw) == Kind(Value(Content(raw), 6))
    ensures IsData(Content(raw)) && !Undecodable(typed, raw) ==> Classify(typed, raw) == Data(Value(Content(raw), 5))
  {
    var line := Content(raw);
    assert StripCr(raw) == line;
    Prefixes(line);
    if IsEvent(line) {
      ValueIsTrimmed(line, 6);
    }
    if IsData(line) {
      ValueIsTrimmed(line, 5);
    }
  }

  // -------------------------------------------------------------------------
  // Lines in a stream
  // -------------------------------------------------------------------------

  predicate OneLine(line: bytes) {
    forall i :: 0 <= i < |line| ==> line[i] != 10
  }

  // The stream is empty or stands at the start of a line.
  predicate AtLineStart(a: bytes) {
    a == [] || a[|a| - 1] == 10
  }

  lemma LinesBehindFirst(first: bytes, rest: bytes, b: bytes)
    requires NoLf(first) && Lines(rest + b) == Lines(rest) + Lines(b)
    ensures Lines(first + [LF] + rest + b) == Lines(first + [LF] + rest) + Lines(b)
  {
    Reassociate(first + [LF], rest, b);
    LinesAtLf(first, rest);
    LinesAtLf(first, rest + b);
    Reassociate([first], Lines(rest), Lines(b));
  }

  lemma CutAtFirstLf(a: bytes) returns (first: bytes, rest: bytes)
    requires AtLineStart(a) && a != []
    ensures NoLf(first) && a == first + [LF] + rest && AtLineStart(rest)
  {
    var k := FirstLf(a);
    first, rest := a[..k], a[k + 1..];
    assert rest != [] ==> rest[|rest| - 1] == a[|a| - 1];
  }

  // Lines that are ended are the same whatever follows.
  lemma {:induction false} LinesBehind(a: bytes, b: bytes)
    requires AtLineStart(a)
    ensures Lines(a + b) == Lines(a) + Lines(b)
    decreases |a|
  {
    if a == [] {
      assert a + b == b;
      assert Lines(a) == [];
    } else {
      var first, rest := CutAtFirstLf(a);
      LinesBehind(rest, b);
      LinesBehindFirst(first, rest, b);
    }
  }

  lemma LinesAround(a: bytes, line: bytes, b: bytes)
    requires AtLineStart(a) && OneLine(line)
    ensures Lines(a + line + [10] + b) == Lines(a) + ([line] + Lines(b))
    ensures Lines(a + b) == Lines(a) + Lines(b)
  {
    LinesBehind(a, line + [10] + b);
    assert a + (line + [10] + b) == a + line + [10] + b;
    LinesAtLf(line, b);
    LinesBehind(a, b);
  }

  // -------------------------------------------------------------------------
  // What a stream means, seen from its lines
  // -------------------------------------------------------------------------

  // The lines as they are classified, or an error; a meaning depends on nothing else.
  function MeaningOfLines(typed: bool, st: State, ls: seq<bytes>): Result<seq<Event>> {
    ResultOf(OnLines(typed, st, ls))
  }

  lemma MeaningByLines(typed: bool, stream: bytes)
    ensures Meaning(typed, stream) == MeaningOfLines(typed, Empty, Lines(stream))
  {
    OnLinesIsBlocks(typed, Empty, Lines(stream));
    var blocks := Blocks(typed, Lines(stream));
    assert BlockEvents(blocks) == BlockEvent(None, [], blocks[0]) + BlockEvents(blocks[1..]);
  }

  // Two runs of lines with the same effect in any state may replace each other anywhere.
  lemma {:induction false} SameBehind(typed: bool, st: State, ls: seq<bytes>, x: seq<bytes>, y: seq<bytes>)
    requires forall s: State :: OnLines(typed, s, x) == OnLines(typed, s, y)
    ensures OnLines(typed, st, ls + x) == OnLines(typed, st, ls + y)
    decreases |ls|
  {
    if ls == [] {
      assert ls + x == x && ls + y == y;
    } else {
      assert (ls + x)[1..] == ls[1..] + x && (ls + y)[1..] == ls[1..] + y;
      var o := OnLine(typed, st, ls[0]);
      if o.Fine? {
        SameBehind(typed, o.state, ls[1..], x, y);
      }
    }
  }

  lemma SilentDoesNothing(typed: bool, st: State, line: bytes, ls: seq<bytes>)
    requires Silent(typed, line)
    ensures OnLines(typed, st, [line] + ls) == OnLines(typed, st, ls)
  {
    LineByBytes(typed, line);
    assert ([line] + ls)[1..] == ls;
    AfterNothing(OnLines(typed, st, ls));
  }

  // A comment or an unknown field may stand anywhere and means nothing.
  lemma SilentLinesMeanNothing(typed: bool, a: bytes, line: bytes, b: bytes)
    requires AtLineStart(a) && OneLine(line) && Silent(typed, line)
    ensures Meaning(typed, a + line + [10] + b) == Meaning(typed, a + b)
  {
    LinesAround(a, line, b);
    MeaningByLines(typed, a + line + [10] + b);
    MeaningByLines(typed, a + b);
    var x, y := [line] + Lines(b), Lines(b);
    forall s: State ensures OnLines(typed, s, x) == OnLines(typed, s, y) {
      SilentDoesNothing(typed, s, line, y);
    }
    SameBehind(typed, Empty, Lines(a), x, y);
  }

  // In particular a line that begins with a colon.
  lemma CommentsMeanNothing(typed: bool, a: bytes, line: bytes, b: bytes)
    requires AtLineStart(a) && OneLine(line) && line != [] && line[0] == 58
    ensures Meaning(typed, a + line + [10] + b) == Meaning(typed, a + b)
  {
    SilentLinesMeanNothing(typed, a, line, b);
  }

  lemma SameLine(typed: bool, st: State, line: bytes, other: bytes, ls: seq<bytes>)
    requires Classify(typed, line) == Classify(typed, other)
    ensures OnLines(typed, st, [line] + ls) == OnLines(typed, st, [other] + ls)
  {
    assert ([line] + ls)[1..] == ls && ([other] + ls)[1..] == ls;
  }

  // Lines classified alike may replace each other.
  lemma AlikeLines(typed: bool, a: bytes, line: bytes, other: bytes, b: bytes)
    requires AtLineStart(a) && OneLine(line) && OneLine(other) && Classify(typed, line) == Classify(typed, other)
    ensures Meaning(typed, a + line + [10] + b) == Meaning(typed, a + other + [10] + b)
  {
    LinesAround(a, line, b);
    LinesAround(a, other, b);
    MeaningByLines(typed, a + line + [10] + b);
    MeaningByLines(typed, a + other + [10] + b);
    var x, y := [line] + Lines(b), [other] + Lines(b);
    forall s: State ensures OnLines(typed, s, x) == OnLines(typed, s, y) {
      SameLine(typed, s, line, other, Lines(b));
    }
    SameBehind(typed, Empty, Lines(a), x, y);
  }

  // CRLF ends a line as LF does.
  lemma CrLfEndsALine(typed: bool, a: bytes, line: bytes, b: bytes)
    requires AtLineStart(a) && OneLine(line) && (line == [] || line[|line| - 1] != 13)
    ensures Meaning(typed, a + (line + [13]) + [10] + b) == Meaning(typed, a + line + [10] + b)
  {
    assert StripCr(line + [13]) == line == StripCr(line);
    AlikeLines(typed, a, line + [13], line, b);
  }

  // The space behind the colon may be missing.
  lemma SpaceIsOptional(typed: bool, a: bytes, name: bytes, value: bytes, b: bytes)
    requires AtLineStart(a) && OneLine(value) && (value == [] || value[0] != 32)
    requires name == [100, 97, 116, 97, 58] || name == [101, 118, 101, 110, 116, 58]
    ensures Meaning(typed, a + (name + value) + [10] + b) == Meaning(typed, a + (name + [32] + value) + [10] + b)
  {
    OptionalSpaceLine(typed, name, value);
    FieldIsOneLine(name, value);
    AlikeLines(typed, a, name + value, name + [32] + value, b);
  }

  lemma FieldIsOneLine(name: bytes, value: bytes)
    requires OneLine(value)
    requires name == [100, 97, 116, 97, 58] || name == [101, 118, 101, 110, 116, 58]
    ensures OneLine(name + value) && OneLine(name + [32] + value)
  {
  }

  lemma OptionalSpaceLine(typed: bool, name: bytes, value: bytes)
    requires value == [] || value[0] != 32
    requires name == [100, 97, 116, 97, 58] || name == [101, 118, 101, 110, 116, 58]
    ensures Classify(typed, name + value) == Classify(typed, name + [32] + value)
  {
    var n := |name|;
    var short, long := Content(name + value), Content(name + [32] + value);
    var kept := Content(value);
    assert short == name + kept && long == name + [32] + kept;
    assert short[..n] == name && short[n..] == kept && long[n + 1..] == kept && long[n] == 32;
    assert Value(short, n) == kept && Value(long, n) == kept;
    FieldLines(short, long, name);
    LineByBytes(typed, name + value);
    LineByBytes(typed, name + [32] + value);
  }

  lemma FieldLines(short: bytes, long: bytes, name: bytes)
    requires name <= short && name <= long
    requires name == [100, 97, 116, 97, 58] || name == [101, 118, 101, 110, 116, 58]
    ensures IsData(short) <==> |name| == 5
    ensures IsData(long) <==> |name| == 5
    ensures IsEvent(short) <==> |name| == 6
    ensures IsEvent(long) <==> |name| == 6
  {
    assert short[0] == name[0] && long[0] == name[0];
    assert forall i :: 0 <= i < |name| ==> short[i] == name[i] && long[i] == name[i];
  }

  // -------------------------------------------------------------------------
  // Whole streams
  // -------------------------------------------------------------------------

  // Parsing fails exactly when some line is a field that does not decode, whatever the cut.
  lemma FailsExactlyOnBadField(typed: bool, chunks: seq<bytes>)
    ensures ResultOf(Drive(typed, Empty, chunks)).Err? <==>
            exists i :: 0 <= i < |Lines(Concat(chunks))| && Undecodable(typed, Lines(Concat(chunks))[i])
  {
    ParserComputesMeaning(typed, chunks);
    var ls := Lines(Concat(chunks));
    forall i | 0 <= i < |ls| ensures Classify(typed, ls[i]).Bad? <==> Undecodable(typed, ls[i]) {
      LineByBytes(typed, ls[i]);
    }
  }

  // -------------------------------------------------------------------------
  // Types and ends
  // -------------------------------------------------------------------------

  lemma TwoLinesAround(a: bytes, x: bytes, y: bytes, b: bytes)
    requires AtLineStart(a) && OneLine(x) && OneLine(y)
    ensures Lines(a + (x + [10] + y + [10]) + b) == Lines(a) + ([x] + ([y] + Lines(b)))
  {
    LinesBehind(a, x + [10] + y + [10] + b);
    assert a + (x + [10] + y + [10] + b) == a + (x + [10] + y + [10]) + b;
    assert x + [10] + y + [10] + b == x + [LF] + (y + [10] + b);
    LinesAtLf(x, y + [10] + b);
    LinesAtLf(y, b);
  }

  lemma LastTypeLine(st: State, x: bytes, y: bytes, ls: seq<bytes>)
    requires Classify(true, x).Kind? && Classify(true, y).Kind?
    ensures OnLines(true, st, [x] + ([y] + ls)) == OnLines(true, st, [y] + ls)
  {
    assert ([x] + ([y] + ls))[1..] == [y] + ls && ([y] + ls)[1..] == ls;
    var st' := st.(kind := Some(Classify(true, x).value));
    assert OnLine(true, st', y) == OnLine(true, st, y);
    AfterNothing(OnLines(true, st', [y] + ls));
  }

  // Of several types of one event the last counts.
  lemma LastTypeCounts(a: bytes, x: bytes, y: bytes, b: bytes)
    requires AtLineStart(a) && OneLine(x) && OneLine(y)
    requires IsEvent(Content(x)) && IsEvent(Content(y)) && !Undecodable(true, x) && !Undecodable(true, y)
    ensures Meaning(true, a + (x + [10] + y + [10]) + b) == Meaning(true, a + y + [10] + b)
  {
    LineByBytes(true, x);
    LineByBytes(true, y);
    TwoLinesAround(a, x, y, b);
    LinesAround(a, y, b);
    MeaningByLines(true, a + (x + [10] + y + [10]) + b);
    MeaningByLines(true, a + y + [10] + b);
    forall s: State ensures OnLines(true, s, [x] + ([y] + Lines(b))) == OnLines(true, s, [y] + Lines(b)) {
      LastTypeLine(s, x, y, Lines(b));
    }
    SameBehind(true, Empty, Lines(a), [x] + ([y] + Lines(b)), [y] + Lines(b));
  }

  lemma TypeThenBlank(st: State, x: bytes, ls: seq<bytes>)
    requires st.data == [] && Classify(true, x).Kind?
    ensures OnLines(true, st, [x] + ([[]] + ls)) == OnLines(true, st, [[]] + ls)
  {
    assert ([x] + ([[]] + ls))[1..] == [[]] + ls && ([[]] + ls)[1..] == ls;
    var st' := st.(kind := Some(Classify(true, x).value));
    assert OnLine(true, st', []) == OnLine(true, st, []);
    AfterNothing(OnLines(true, st', [[]] + ls));
  }

  // A type without data is discarded at the blank line.
  lemma TypeWithoutDataIsDropped(x: bytes, b: bytes)
    requires OneLine(x) && IsEvent(Content(x)) && !Undecodable(true, x)
    ensures Meaning(true, x + [10] + [10] + b) == Meaning(true, b)
  {
    LineByBytes(true, x);
    var ls := Lines(b);
    assert x + [10] + [10] + b == [] + (x + [10] + [] + [10]) + b;
    TwoLinesAround([], x, [], b);
    assert Lines([]) == [] && [] + ([x] + ([[]] + ls)) == [x] + ([[]] + ls);
    MeaningByLines(true, x + [10] + [10] + b);
    MeaningByLines(true, b);
    TypeThenBlank(Empty, x, ls);
    assert ([[]] + ls)[1..] == ls;
    AfterNothing(OnLines(true, Empty, ls));
  }

  lemma {:induction false} BlankAtEnd(typed: bool, st: State, ls: seq<bytes>)
    ensures ResultOf(OnLines(typed, st, ls + [[]])) == ResultOf(OnLines(typed, st, ls))
    decreases |ls|
  {
    if ls == [] {
      var blank: seq<bytes> := [[]];
      assert ls + blank == blank && blank[1..] == [];
      var o := Flush(st);
      assert o.events + [] == o.events;
    } else {
      assert (ls + [[]])[1..] == ls[1..] + [[]];
      var o := OnLine(typed, st, ls[0]);
      if o.Fine? {
        BlankAtEnd(typed, o.state, ls[1..]);
      }
    }
  }

  // The ended lines and the unended rest.
  lemma {:induction false} LastLine(s: bytes) returns (a: bytes, line: bytes)
    ensures s == a + line && AtLineStart(a) && OneLine(line) && (line == [] <==> AtLineStart(s))
    decreases |s|
  {
    if s == [] || s[|s| - 1] == 10 {
      a, line := s, [];
    } else {
      var front, c := s[..|s| - 1], s[|s| - 1];
      var rest;
      a, rest := LastLine(front);
      line := rest + [c];
      assert s == a + (rest + [c]);
    }
  }

  lemma LinesOfFeed(line: bytes)
    requires OneLine(line)
    ensures Lines(line + [10]) == [line] && Lines([]) == []
  {
    LinesAtLf(line, []);
    assert line + [LF] + [] == line + [10];
    assert Lines([]) == [];
    assert [line] + [] == [line];
  }

  lemma FeedAfterEndedLine(s: bytes)
    requires AtLineStart(s)
    ensures Lines(s + [10]) == Lines(s) + [[]]
  {
    LinesBehind(s, [10]);
    LinesOfFeed([]);
    assert [] + [10] == [10];
  }

  lemma FeedAfterUnendedLine(a: bytes, line: bytes)
    requires AtLineStart(a) && OneLine(line) && line != []
    ensures Lines(a + line + [10]) == Lines(a + line)
  {
    LinesBehind(a, line);
    LinesBehind(a, line + [10]);
    assert a + (line + [10]) == a + line + [10];
    LinesWithoutLf(line);
    LinesOfFeed(line);
  }

  lemma LinesToTheEnd(s: bytes)
    ensures Lines(s + [10]) == if AtLineStart(s) then Lines(s) + [[]] else Lines(s)
  {
    if AtLineStart(s) {
      FeedAfterEndedLine(s);
    } else {
      var a, line := LastLine(s);
      FeedAfterUnendedLine(a, line);
    }
  }

  lemma LineFeedAtEnd(typed: bool, s: bytes)
    ensures Meaning(typed, s + [10]) == Meaning(typed, s)
  {
    LinesToTheEnd(s);
    MeaningByLines(typed, s);
    MeaningByLines(typed, s + [10]);
    BlankAtEnd(typed, Empty, Lines(s));
  }

  // The end of the stream completes the last line and the last event, as line feeds would.
  lemma EndCompletesTheEvent(typed: bool, s: bytes)
    ensures Meaning(typed, s) == Meaning(typed, s + [10, 10])
  {
    LineFeedAtEnd(typed, s);
    LineFeedAtEnd(typed, s + [10]);
    TwoFeeds(s);
  }

  lemma TwoFeeds(s: bytes)
    ensures s + [10] + [10] == s + [10, 10]
  {
  }
}
