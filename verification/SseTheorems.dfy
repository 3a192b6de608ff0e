/** The incremental parsers against a line-by-line reference, against each other and against a writer. */
module SseTheorems {
  import opened Common
  import opened Utf8
  import opened Sse

  // -------------------------------------------------------------------------
  // Reference: lines, then blocks between blank lines, then one event a block
  // -------------------------------------------------------------------------

  // The pieces between line feeds; the last piece is what follows the last line feed.
  function Split(s: bytes): (r: seq<bytes>)
    ensures |r| > 0
  {
    if s == [] then [[]]
    else
      var rest := Split(s[1..]);
      if s[0] == LF then [[]] + rest else [[s[0]] + rest[0]] + rest[1..]
  }

  // The lines of a stream: an unterminated last line counts when it is not empty.
  function Lines(s: bytes): seq<bytes> {
    var ls := Split(s);
    if ls[|ls| - 1] == [] then ls[..|ls| - 1] else ls
  }

  // The classified lines cut at blank lines.
  function Blocks(typed: bool, ls: seq<bytes>): (r: seq<seq<Line>>)
    ensures |r| > 0
  {
    if ls == [] then [[]]
    else
      var rest := Blocks(typed, ls[1..]);
      var line := Classify(typed, ls[0]);
      if line.Blank? then [[]] + rest else [[line] + rest[0]] + rest[1..]
  }

  function DataOf(block: seq<Line>): seq<bytes> {
    if block == [] then []
    else (if block[0].Data? then [block[0].value] else []) + DataOf(block[1..])
  }

  // The last event type named in the block, or `before`.
  function KindOf(before: Option<bytes>, block: seq<Line>): Option<bytes>
    decreases |block|
  {
    if block == [] then before
    else KindOf(if block[0].Kind? then Some(block[0].value) else before, block[1..])
  }

  // A block that follows pending lines of its own event.
  function BlockEvent(kind: Option<bytes>, data: seq<bytes>, block: seq<Line>): seq<Event> {
    if data + DataOf(block) == [] then [] else [Event(KindOf(kind, block), Join(data + DataOf(block)))]
  }

  function BlockEvents(blocks: seq<seq<Line>>): seq<Event> {
    if blocks == [] then [] else BlockEvent(None, [], blocks[0]) + BlockEvents(blocks[1..])
  }

  predicate AllDecode(typed: bool, ls: seq<bytes>) {
    forall i :: 0 <= i < |ls| ==> !Classify(typed, ls[i]).Bad?
  }

  // What a stream means.
  function Meaning(typed: bool, stream: bytes): Result<seq<Event>> {
    if AllDecode(typed, Lines(stream)) then Ok(BlockEvents(Blocks(typed, Lines(stream)))) else Err
  }

  function ResultOf(o: Outcome): Result<seq<Event>> {
    match o
    case Fine(_, events) => Ok(events)
    case Failed(_) => Err
  }

  // -------------------------------------------------------------------------
  // Cutting the stream does not matter
  // -------------------------------------------------------------------------

  lemma {:induction false} FeedAppend(typed: bool, st: State, a: bytes, b: bytes)
    ensures Feed(typed, st, a + b) ==
            match Feed(typed, st, a)
            case Failed(st') => Failed(st')
            case Fine(st', events) => After(events, Feed(typed, st', b))
    decreases |a|
  {
    if a == [] {
      assert a + b == b;
      AfterNothing(Feed(typed, st, b));
    } else {
      assert (a + b)[0] == a[0] && (a + b)[1..] == a[1..] + b;
      var o := OnByte(typed, st, a[0]);
      if o.Fine? {
        FeedAppend(typed, o.state, a[1..], b);
        var m := Feed(typed, o.state, a[1..]);
        if m.Fine? {
          AfterAfter(o.events, m.events, Feed(typed, m.state, b));
        }
      }
    }
  }

  lemma AfterNothing(o: Outcome)
    ensures After([], o) == o
  {
    if o.Fine? {
      assert [] + o.events == o.events;
    }
  }

  // The whole stream in one chunk.
  function Whole(typed: bool, st: State, stream: bytes): Outcome {
    match Feed(typed, st, stream)
    case Failed(st') => Failed(st')
    case Fine(st', events) => After(events, AtEnd(typed, st'))
  }

  // Every way of cutting a stream gives the same events or the same failure.
  lemma {:induction false} CutsDoNotMatter(typed: bool, st: State, chunks: seq<bytes>)
    ensures Drive(typed, st, chunks) == Whole(typed, st, Concat(chunks))
    decreases |chunks|
  {
    if chunks == [] {
      AfterNothing(AtEnd(typed, st));
    } else {
      var o := Feed(typed, st, chunks[0]);
      FeedAppend(typed, st, chunks[0], Concat(chunks[1..]));
      if o.Fine? {
        CutsDoNotMatter(typed, o.state, chunks[1..]);
        var m := Feed(typed, o.state, Concat(chunks[1..]));
        if m.Fine? {
          AfterAfter(o.events, m.events, AtEnd(typed, m.state));
        }
      }
    }
  }

  // -------------------------------------------------------------------------
  // The machine computes the reference
  // -------------------------------------------------------------------------

  function OnLines(typed: bool, st: State, ls: seq<bytes>): Outcome
    decreases |ls|
  {
    if ls == [] then Flush(st)
    else
      match OnLine(typed, st, ls[0])
      case Failed(st') => Failed(st')
      case Fine(st', events) => After(events, OnLines(typed, st', ls[1..]))
  }

  predicate NoLf(s: bytes) {
    forall i :: 0 <= i < |s| ==> s[i] != LF
  }

  lemma {:induction false} SplitAtLf(a: bytes, b: bytes)
    requires NoLf(a)
    ensures Split(a + [LF] + b) == [a] + Split(b)
  {
    var s := a + [LF] + b;
    if a == [] {
      assert s == [LF] + b;
      assert s[1..] == b;
    } else {
      assert s[0] == a[0] && s[1..] == a[1..] + [LF] + b;
      SplitAtLf(a[1..], b);
      assert [a[0]] + a[1..] == a;
    }
  }

  lemma {:induction false} SplitWithoutLf(a: bytes)
    requires NoLf(a)
    ensures Split(a) == [a]
  {
    if a != [] {
      SplitWithoutLf(a[1..]);
      assert [a[0]] + a[1..] == a;
    }
  }

  lemma LinesAtLf(a: bytes, b: bytes)
    requires NoLf(a)
    ensures Lines(a + [LF] + b) == [a] + Lines(b)
  {
    SplitAtLf(a, b);
    var ls := Split(b);
    assert ([a] + ls)[..|ls|] == [a] + ls[..|ls| - 1];
  }

  lemma LinesWithoutLf(a: bytes)
    requires NoLf(a)
    ensures Lines(a) == if a == [] then [] else [a]
  {
    SplitWithoutLf(a);
  }

  lemma WholeUnfolds(typed: bool, st: State, bs: bytes)
    requires bs != [] && OnByte(typed, st, bs[0]).Fine?
    ensures
      var o := OnByte(typed, st, bs[0]);
      Whole(typed, st, bs) == After(o.events, Whole(typed, o.state, bs[1..]))
  {
    var o := OnByte(typed, st, bs[0]);
    var m := Feed(typed, o.state, bs[1..]);
    if m.Fine? {
      AfterAfter(o.events, m.events, AtEnd(typed, m.state));
    }
  }

  // Bytes to lines: the buffer is the beginning of the current line.
  lemma {:induction false} WholeIsOnLines(typed: bool, st: State, bs: bytes)
    requires NoLf(st.buffer)
    ensures Whole(typed, st, bs) == OnLines(typed, st.(buffer := []), Lines(st.buffer + bs))
    decreases |bs|
  {
    if bs == [] {
      assert st.buffer + bs == st.buffer;
      LinesWithoutLf(st.buffer);
      AfterNothing(AtEnd(typed, st));
    } else if bs[0] == LF {
      var o := OnByte(typed, st, LF);
      if o.Fine? {
        WholeIsOnLines(typed, o.state, bs[1..]);
      }
      LineEnds(typed, st, bs);
    } else {
      var o := OnByte(typed, st, bs[0]);
      assert st.buffer + bs == o.state.buffer + bs[1..];
      WholeIsOnLines(typed, o.state, bs[1..]);
      WholeUnfolds(typed, st, bs);
      AfterNothing(Whole(typed, o.state, bs[1..]));
    }
  }

  lemma LineEnds(typed: bool, st: State, bs: bytes)
    requires NoLf(st.buffer) && bs != [] && bs[0] == LF
    requires
      var o := OnByte(typed, st, LF);
      o.Fine? ==>
        Whole(typed, o.state, bs[1..]) == OnLines(typed, o.state.(buffer := []), Lines(o.state.buffer + bs[1..]))
    ensures Whole(typed, st, bs) == OnLines(typed, st.(buffer := []), Lines(st.buffer + bs))
  {
    var o := OnByte(typed, st, LF);
    var rest := bs[1..];
    assert st.buffer + bs == st.buffer + [LF] + rest;
    LinesAtLf(st.buffer, rest);
    assert ([st.buffer] + Lines(rest))[1..] == Lines(rest);
    if o.Fine? {
      LineKeepsBuffer(typed, st.(buffer := []), st.buffer);
      assert [] + rest == rest;
      WholeUnfolds(typed, st, bs);
    }
  }

  lemma LineKeepsBuffer(typed: bool, st: State, raw: bytes)
    ensures OnLine(typed, st, raw).state.buffer == st.buffer
  {
  }

  // What is pending is the beginning of the first block.
  function Pending(st: State, blocks: seq<seq<Line>>): seq<Event>
    requires |blocks| > 0
  {
    BlockEvent(st.kind, st.data, blocks[0]) + BlockEvents(blocks[1..])
  }

  // Lines to blocks.
  lemma {:induction false} OnLinesIsBlocks(typed: bool, st: State, ls: seq<bytes>)
    ensures ResultOf(OnLines(typed, st, ls)) ==
            if AllDecode(typed, ls) then Ok(Pending(st, Blocks(typed, ls))) else Err
    decreases |ls|
  {
    if ls == [] {
      assert st.data + [] == st.data;
      assert Blocks(typed, ls)[1..] == [];
      assert Flush(st).events + [] == Flush(st).events;
    } else {
      DecodeStep(typed, ls);
      var o := OnLine(typed, st, ls[0]);
      if o.Fine? {
        OnLinesIsBlocks(typed, o.state, ls[1..]);
        PendingStep(typed, st, ls);
      }
    }
  }

  lemma DecodeStep(typed: bool, ls: seq<bytes>)
    requires ls != []
    ensures AllDecode(typed, ls) <==> !Classify(typed, ls[0]).Bad? && AllDecode(typed, ls[1..])
  {
    assert forall i :: 1 <= i < |ls| ==> ls[i] == ls[1..][i - 1];
  }

  lemma PendingStep(typed: bool, st: State, ls: seq<bytes>)
    requires ls != [] && OnLine(typed, st, ls[0]).Fine?
    ensures
      var o := OnLine(typed, st, ls[0]);
      Pending(st, Blocks(typed, ls)) == o.events + Pending(o.state, Blocks(typed, ls[1..]))
  {
    var line := Classify(typed, ls[0]);
    var rest := Blocks(typed, ls[1..]);
    if line.Blank? {
      assert st.data + [] == st.data;
      assert Blocks(typed, ls)[1..] == rest;
    } else {
      assert Blocks(typed, ls)[1..] == rest[1..];
      BlockStep(st, line, rest[0]);
    }
  }

  lemma BlockStep(st: State, line: Line, block: seq<Line>)
    ensures line.Data? ==>
              BlockEvent(st.kind, st.data, [line] + block) == BlockEvent(st.kind, st.data + [line.value], block)
    ensures line.Kind? ==> BlockEvent(st.kind, st.data, [line] + block) == BlockEvent(Some(line.value), st.data, block)
    ensures line.Skip? ==> BlockEvent(st.kind, st.data, [line] + block) == BlockEvent(st.kind, st.data, block)
  {
    assert ([line] + block)[1..] == block;
    if line.Data? {
      assert st.data + ([line.value] + DataOf(block)) == st.data + [line.value] + DataOf(block);
    } else {
      assert [] + DataOf(block) == DataOf(block);
    }
  }

  // Any cut of any stream, fed chunk by chunk and finished, yields the meaning of the stream.
  lemma ParserComputesMeaning(typed: bool, chunks: seq<bytes>)
    ensures ResultOf(Drive(typed, Empty, chunks)) == Meaning(typed, Concat(chunks))
  {
    var stream := Concat(chunks);
    CutsDoNotMatter(typed, Empty, chunks);
    WholeIsOnLines(typed, Empty, stream);
    assert [] + stream == stream;
    OnLinesIsBlocks(typed, Empty, Lines(stream));
    var blocks := Blocks(typed, Lines(stream));
    assert BlockEvents(blocks) == BlockEvent(None, [], blocks[0]) + BlockEvents(blocks[1..]);
  }

  // -------------------------------------------------------------------------
  // What a caller has got when a stream fails
  // -------------------------------------------------------------------------

  function EventsOf(o: Outcome): seq<Event> {
    match o
    case Fine(_, events) => events
    case Failed(_) => []
  }

  // What the bytes emit, up to the first bad line.
  function EmittedBy(typed: bool, st: State, bs: bytes): seq<Event>
    decreases |bs|
  {
    if bs == [] then []
    else
      match OnByte(typed, st, bs[0])
      case Failed(_) => []
      case Fine(st', events) => events + EmittedBy(typed, st', bs[1..])
  }

  // The same for a whole stream, with what its end emits.
  function Emitted(typed: bool, st: State, bs: bytes): seq<Event>
    decreases |bs|
  {
    if bs == [] then EventsOf(AtEnd(typed, st))
    else
      match OnByte(typed, st, bs[0])
      case Failed(_) => []
      case Fine(st', events) => events + Emitted(typed, st', bs[1..])
  }

  // What the calls that did not fail return.
  function Returned(typed: bool, st: State, chunks: seq<bytes>): seq<Event>
    decreases |chunks|
  {
    if chunks == [] then EventsOf(AtEnd(typed, st))
    else
      match Feed(typed, st, chunks[0])
      case Failed(_) => []
      case Fine(st', events) => events + Returned(typed, st', chunks[1..])
  }

  // What the chunk with the bad line emits before that line.
  function Dropped(typed: bool, st: State, chunks: seq<bytes>): seq<Event>
    decreases |chunks|
  {
    if chunks == [] then []
    else
      match Feed(typed, st, chunks[0])
      case Failed(_) => EmittedBy(typed, st, chunks[0])
      case Fine(st', _) => Dropped(typed, st', chunks[1..])
  }

  lemma {:induction false} EmittedAppend(typed: bool, st: State, a: bytes, b: bytes)
    ensures Emitted(typed, st, a + b) ==
            match Feed(typed, st, a)
            case Failed(_) => EmittedBy(typed, st, a)
            case Fine(st', events) => events + Emitted(typed, st', b)
    decreases |a|
  {
    if a == [] {
      assert a + b == b;
      assert [] + Emitted(typed, st, b) == Emitted(typed, st, b);
    } else {
      assert (a + b)[0] == a[0] && (a + b)[1..] == a[1..] + b;
      var o := OnByte(typed, st, a[0]);
      if o.Fine? {
        EmittedAppend(typed, o.state, a[1..], b);
        var m := Feed(typed, o.state, a[1..]);
        if m.Fine? {
          Reassociate(o.events, m.events, Emitted(typed, m.state, b));
        }
      }
    }
  }

  // Over every cut, what the stream emits is what the caller got and then what the failing call dropped.
  lemma {:induction false} ReturnedThenDropped(typed: bool, st: State, chunks: seq<bytes>)
    ensures Emitted(typed, st, Concat(chunks)) == Returned(typed, st, chunks) + Dropped(typed, st, chunks)
    decreases |chunks|
  {
    if chunks == [] {
      assert EventsOf(AtEnd(typed, st)) + [] == EventsOf(AtEnd(typed, st));
    } else {
      EmittedAppend(typed, st, chunks[0], Concat(chunks[1..]));
      var o := Feed(typed, st, chunks[0]);
      if o.Fine? {
        ReturnedThenDropped(typed, o.state, chunks[1..]);
        Reassociate(o.events, Returned(typed, o.state, chunks[1..]), Dropped(typed, o.state, chunks[1..]));
      } else {
        assert [] + EmittedBy(typed, st, chunks[0]) == EmittedBy(typed, st, chunks[0]);
      }
    }
  }

  // By lines: the events of the lines before the first bad one.
  function LineEvents(typed: bool, st: State, ls: seq<bytes>): seq<Event>
    decreases |ls|
  {
    if ls == [] then EventsOf(Flush(st))
    else
      match OnLine(typed, st, ls[0])
      case Failed(_) => []
      case Fine(st', events) => events + LineEvents(typed, st', ls[1..])
  }

  lemma {:induction false} EmittedByLines(typed: bool, st: State, bs: bytes)
    requires NoLf(st.buffer)
    ensures Emitted(typed, st, bs) == LineEvents(typed, st.(buffer := []), Lines(st.buffer + bs))
    decreases |bs|
  {
    if bs == [] {
      assert st.buffer + bs == st.buffer;
      LinesWithoutLf(st.buffer);
      EndByLines(typed, st);
    } else if bs[0] == LF {
      var o := OnByte(typed, st, LF);
      var rest := bs[1..];
      assert st.buffer + bs == st.buffer + [LF] + rest;
      LinesAtLf(st.buffer, rest);
      assert ([st.buffer] + Lines(rest))[1..] == Lines(rest);
      if o.Fine? {
        LineKeepsBuffer(typed, st.(buffer := []), st.buffer);
        assert [] + rest == rest;
        EmittedByLines(typed, o.state, rest);
      }
    } else {
      var o := OnByte(typed, st, bs[0]);
      assert st.buffer + bs == o.state.buffer + bs[1..];
      EmittedByLines(typed, o.state, bs[1..]);
      assert [] + Emitted(typed, o.state, bs[1..]) == Emitted(typed, o.state, bs[1..]);
    }
  }

  lemma EndByLines(typed: bool, st: State)
    ensures EventsOf(AtEnd(typed, st))
            == LineEvents(typed, st.(buffer := []), if st.buffer == [] then [] else [st.buffer])
  {
    if st.buffer == [] {
      assert st.(buffer := []) == st;
    } else {
      assert [st.buffer][1..] == [];
    }
  }

  // The lines before the first one that does not decode.
  function GoodLines(typed: bool, ls: seq<bytes>): seq<bytes> {
    if ls == [] || Classify(typed, ls[0]).Bad? then [] else [ls[0]] + GoodLines(typed, ls[1..])
  }

  // What the lines mean as far as they decode: without a bad line all blocks count, else those that a
  // blank line has closed.
  function EventsBeforeBad(typed: bool, st: State, ls: seq<bytes>): seq<Event> {
    var blocks := Blocks(typed, GoodLines(typed, ls));
    if AllDecode(typed, ls) then Pending(st, blocks) else ClosedEvents(st, blocks)
  }

  lemma {:induction false} AllAreGood(typed: bool, ls: seq<bytes>)
    requires AllDecode(typed, ls)
    ensures GoodLines(typed, ls) == ls
  {
    if ls != [] {
      DecodeStep(typed, ls);
      AllAreGood(typed, ls[1..]);
    }
  }

  lemma {:induction false} LineEventsAreBlocks(typed: bool, st: State, ls: seq<bytes>)
    ensures LineEvents(typed, st, ls) == EventsBeforeBad(typed, st, ls)
    decreases |ls|
  {
    if ls == [] {
      assert st.data + [] == st.data;
      assert Blocks(typed, ls)[1..] == [];
      assert EventsOf(Flush(st)) + [] == EventsOf(Flush(st));
    } else if !Classify(typed, ls[0]).Bad? {
      var o := OnLine(typed, st, ls[0]);
      LineEventsAreBlocks(typed, o.state, ls[1..]);
      BeforeBadStep(typed, st, ls);
    }
  }

  lemma BeforeBadStep(typed: bool, st: State, ls: seq<bytes>)
    requires ls != [] && OnLine(typed, st, ls[0]).Fine?
    ensures
      var o := OnLine(typed, st, ls[0]);
      EventsBeforeBad(typed, st, ls) == o.events + EventsBeforeBad(typed, o.state, ls[1..])
  {
    DecodeStep(typed, ls);
    var good := GoodLines(typed, ls);
    assert good[0] == ls[0] && good[1..] == GoodLines(typed, ls[1..]);
    if AllDecode(typed, ls) {
      PendingStep(typed, st, good);
    } else {
      ClosedStep(typed, st, good);
    }
  }

  // The blocks closed by a blank line.
  function ClosedEvents(st: State, blocks: seq<seq<Line>>): seq<Event>
    requires |blocks| > 0
  {
    if |blocks| == 1 then [] else Pending(st, blocks[..|blocks| - 1])
  }

  lemma ClosedByBlank(st: State, rest: seq<seq<Line>>)
    requires |rest| > 0
    ensures ClosedEvents(st, [[]] + rest) == BlockEvent(st.kind, st.data, []) + ClosedEvents(Empty, rest)
  {
    var closed := rest[..|rest| - 1];
    assert ([[]] + rest)[..|rest|] == [[]] + closed;
    assert ([[]] + closed)[1..] == closed;
    if |rest| == 1 {
      assert BlockEvents(closed) == [];
    } else {
      assert BlockEvents(closed) == BlockEvent(None, [], closed[0]) + BlockEvents(closed[1..]);
    }
  }

  lemma ClosedLater(st: State, st': State, line: Line, rest: seq<seq<Line>>)
    requires |rest| > 0
    requires BlockEvent(st.kind, st.data, [line] + rest[0]) == BlockEvent(st'.kind, st'.data, rest[0])
    ensures ClosedEvents(st, [[line] + rest[0]] + rest[1..]) == ClosedEvents(st', rest)
  {
    var blocks := [[line] + rest[0]] + rest[1..];
    if |rest| > 1 {
      assert blocks[..|blocks| - 1][1..] == rest[..|rest| - 1][1..];
    }
  }

  lemma ClosedStep(typed: bool, st: State, ls: seq<bytes>)
    requires ls != [] && OnLine(typed, st, ls[0]).Fine?
    ensures
      var o := OnLine(typed, st, ls[0]);
      ClosedEvents(st, Blocks(typed, ls)) == o.events + ClosedEvents(o.state, Blocks(typed, ls[1..]))
  {
    var line := Classify(typed, ls[0]);
    var rest := Blocks(typed, ls[1..]);
    var o := OnLine(typed, st, ls[0]);
    if line.Blank? {
      assert st.data + [] == st.data;
      ClosedByBlank(st, rest);
      SamePending(o.state, Empty, rest);
    } else {
      BlockStep(st, line, rest[0]);
      ClosedLater(st, o.state, line, rest);
      assert [] + ClosedEvents(o.state, rest) == ClosedEvents(o.state, rest);
    }
  }

  // Only the type and the data of a state are pending.
  lemma SamePending(a: State, b: State, blocks: seq<seq<Line>>)
    requires |blocks| > 0 && a.kind == b.kind && a.data == b.data
    ensures ClosedEvents(a, blocks) == ClosedEvents(b, blocks)
  {
  }

  /**
   Whether a stream fails or not, and however it is cut: the events that the caller has got are a prefix
   of those the stream means before its first bad line, and all of them exactly when the chunk with that
   line completes none before it.
   */
  lemma CallerGetsAPrefix(typed: bool, chunks: seq<bytes>)
    ensures
      var means := EventsBeforeBad(typed, Empty, Lines(Concat(chunks)));
      var got := Returned(typed, Empty, chunks);
      && means == got + Dropped(typed, Empty, chunks)
      && got <= means
      && (got == means <==> Dropped(typed, Empty, chunks) == [])
      && (Meaning(typed, Concat(chunks)).Ok? ==> Meaning(typed, Concat(chunks)).value == means)
  {
    var stream := Concat(chunks);
    ReturnedThenDropped(typed, Empty, chunks);
    EmittedByLines(typed, Empty, stream);
    assert [] + stream == stream;
    LineEventsAreBlocks(typed, Empty, Lines(stream));
    if AllDecode(typed, Lines(stream)) {
      AllAreGood(typed, Lines(stream));
    }
  }

  // -------------------------------------------------------------------------
  // The two parsers against each other
  // -------------------------------------------------------------------------

  // The line is an `event:` line whose value is not UTF-8.
  predicate BadKind(raw: bytes) {
    EVENT <= StripCr(raw) && !Valid(TrimSpace(StripCr(raw)[6..]))
  }

  predicate KindsDecode(ls: seq<bytes>) {
    forall i :: 0 <= i < |ls| ==> !BadKind(ls[i])
  }

  lemma TypedLine(raw: bytes)
    ensures Classify(true, raw).Bad? <==> Classify(false, raw).Bad? || BadKind(raw)
    ensures !Classify(true, raw).Bad? ==>
              || Classify(true, raw) == Classify(false, raw)
              || (Classify(true, raw).Kind? && Classify(false, raw).Skip?)
  {
    var line := StripCr(raw);
    if |line| > 0 && EVENT <= line {
      assert line[0] == EVENT[0] != DATA[0];
    }
  }

  // Blocks with the same payloads.
  predicate AlikeInData(a: seq<seq<Line>>, b: seq<seq<Line>>) {
    |a| == |b| && forall i :: 0 <= i < |a| ==> DataOf(a[i]) == DataOf(b[i])
  }

  lemma DataOfCons(line: Line, block: seq<Line>)
    ensures DataOf([line] + block) == (if line.Data? then [line.value] else []) + DataOf(block)
  {
    assert ([line] + block)[1..] == block;
  }

  lemma SameDataInFront(t: Line, f: Line, a: seq<seq<Line>>, b: seq<seq<Line>>)
    requires AlikeInData(a, b) && a != [] && (t == f || (t.Kind? && f.Skip?))
    ensures AlikeInData([[t] + a[0]] + a[1..], [[f] + b[0]] + b[1..])
  {
    DataOfCons(t, a[0]);
    DataOfCons(f, b[0]);
  }

  lemma {:induction false} UntypedBlocks(ls: seq<bytes>)
    requires AllDecode(true, ls)
    ensures AlikeInData(Blocks(true, ls), Blocks(false, ls))
  {
    if ls != [] {
      assert forall i :: 0 <= i < |ls[1..]| ==> ls[1..][i] == ls[i + 1];
      UntypedBlocks(ls[1..]);
      TypedLine(ls[0]);
      SameDataInFront(Classify(true, ls[0]), Classify(false, ls[0]), Blocks(true, ls[1..]), Blocks(false, ls[1..]));
    }
  }

  lemma {:induction false} SameData(a: seq<seq<Line>>, b: seq<seq<Line>>)
    requires AlikeInData(a, b)
    ensures Payloads(BlockEvents(a)) == Payloads(BlockEvents(b))
  {
    if a != [] {
      SameData(a[1..], b[1..]);
      PayloadsAppend(BlockEvent(None, [], a[0]), BlockEvents(a[1..]));
      PayloadsAppend(BlockEvent(None, [], b[0]), BlockEvents(b[1..]));
    }
  }

  // The event parser accepts exactly the streams that the data parser accepts and whose event types decode;
  // dropping the types from its events then gives the data parser's payloads.
  lemma TypedAgainstUntyped(chunks: seq<bytes>, cuts: seq<bytes>)
    requires Concat(chunks) == Concat(cuts)
    ensures
      var typed := ResultOf(Drive(true, Empty, chunks));
      var untyped := ResultOf(Drive(false, Empty, cuts));
      && (typed.Ok? <==> untyped.Ok? && KindsDecode(Lines(Concat(chunks))))
      && (typed.Ok? ==> Payloads(typed.value) == Payloads(untyped.value))
  {
    ParserComputesMeaning(true, chunks);
    ParserComputesMeaning(false, cuts);
    var ls := Lines(Concat(chunks));
    forall i | 0 <= i < |ls| ensures Classify(true, ls[i]).Bad? <==> Classify(false, ls[i]).Bad? || BadKind(ls[i]) {
      TypedLine(ls[i]);
    }
    if AllDecode(true, ls) {
      UntypedBlocks(ls);
      SameData(Blocks(true, ls), Blocks(false, ls));
    }
  }

  // -------------------------------------------------------------------------
  // Round trip
  // -------------------------------------------------------------------------

  function DataLines(ls: seq<bytes>): bytes {
    if ls == [] then [] else DATA + [SPACE] + ls[0] + [LF] + DataLines(ls[1..])
  }

  // One event on the wire: its type, one `data:` line for every line of the payload, a blank line.
  function Write(e: Event): bytes {
    (if e.kind.Some? then EVENT + [SPACE] + e.kind.value + [LF] else []) + DataLines(Split(e.data)) + [LF]
  }

  function WriteAll(es: seq<Event>): bytes {
    if es == [] then [] else Write(es[0]) + WriteAll(es[1..])
  }

  // Decodable, with an event type of one line; the data parser does not decode the type.
  predicate Writable(typed: bool, e: Event) {
    Valid(e.data) && (e.kind.Some? ==> NoLf(e.kind.value) && (typed ==> Valid(e.kind.value)))
  }

  function StripAll(ls: seq<bytes>): seq<bytes> {
    if ls == [] then [] else [StripCr(ls[0])] + StripAll(ls[1..])
  }

  // What the wire does to an event: a carriage return before a line end is taken for part of it.
  function Received(typed: bool, e: Event): Event {
    Event(if typed && e.kind.Some? then Some(StripCr(e.kind.value)) else None, Join(StripAll(Split(e.data))))
  }

  function ReceivedAll(typed: bool, es: seq<Event>): seq<Event> {
    if es == [] then [] else [Received(typed, es[0])] + ReceivedAll(typed, es[1..])
  }

  predicate WholeLines(ls: seq<bytes>) {
    forall i :: 0 <= i < |ls| ==> Valid(ls[i]) && NoLf(ls[i])
  }

  lemma WholeLinesCons(a: bytes, ls: seq<bytes>)
    requires Valid(a) && NoLf(a) && WholeLines(ls)
    ensures WholeLines([a] + ls)
  {
  }

  lemma {:induction false} SplitIsValid(s: bytes)
    requires Valid(s)
    ensures WholeLines(Split(s))
    decreases |s|
  {
    var k := FirstLf(s);
    if k == |s| {
      SplitWithoutLf(s);
    } else {
      var a, b := s[..k], s[k + 1..];
      assert s == a + [LF] + b;
      ValidSplit(a, LF, b);
      SplitAtLf(a, b);
      SplitIsValid(b);
      WholeLinesCons(a, Split(b));
    }
  }

  function FirstLf(s: bytes): (k: nat)
    ensures k <= |s| && NoLf(s[..k]) && (k < |s| ==> s[k] == LF)
  {
    if s == [] || s[0] == LF then 0 else 1 + FirstLf(s[1..])
  }

  lemma StripIsValid(s: bytes)
    requires Valid(s)
    ensures Valid(StripCr(s))
  {
    if |s| > 0 && s[|s| - 1] == CR {
      assert s == s[..|s| - 1] + [CR] + [];
      ValidSplit(s[..|s| - 1], CR, []);
    }
  }

  lemma StripBehindPrefix(p: bytes, s: bytes)
    requires |p| > 0 && p[|p| - 1] == SPACE
    ensures StripCr(p + s) == p + StripCr(s)
  {
    if s != [] {
      assert (p + s)[|p + s| - 1] == s[|s| - 1];
    }
  }

  lemma DataLineIsData(typed: bool, line: bytes)
    requires Valid(line)
    ensures Classify(typed, DATA + [SPACE] + line) == Data(StripCr(line))
  {
    StripBehindPrefix(DATA + [SPACE], line);
    StripIsValid(line);
    DataPrefix(StripCr(line));
  }

  lemma DataPrefix(value: bytes)
    ensures
      var l := DATA + [SPACE] + value;
      && l != [] && l[0] != COLON && DATA <= l && !(EVENT <= l)
      && TrimSpace(l[5..]) == value
  {
    var l := DATA + [SPACE] + value;
    assert l[0] == DATA[0] != EVENT[0];
    assert l[5..] == [SPACE] + value;
    assert l[5..][1..] == value;
  }

  lemma KindLineIsKind(value: bytes)
    requires Valid(value)
    ensures Classify(true, EVENT + [SPACE] + value) == Kind(StripCr(value))
  {
    StripBehindPrefix(EVENT + [SPACE], value);
    StripIsValid(value);
    EventPrefix(StripCr(value));
  }

  lemma KindLineIsSkipped(value: bytes)
    ensures Classify(false, EVENT + [SPACE] + value) == Skip
  {
    StripBehindPrefix(EVENT + [SPACE], value);
    EventPrefix(StripCr(value));
  }

  lemma EventPrefix(value: bytes)
    ensures
      var l := EVENT + [SPACE] + value;
      l != [] && l[0] != COLON && EVENT <= l && !(DATA <= l) && TrimSpace(l[6..]) == value
  {
    var l := EVENT + [SPACE] + value;
    assert l[0] == EVENT[0] != DATA[0];
    assert l[6..] == [SPACE] + value;
    assert l[6..][1..] == value;
  }

  // A whole line through the byte machine.
  lemma FeedOneLine(typed: bool, st: State, line: bytes)
    requires st.buffer == [] && NoLf(line)
    ensures Feed(typed, st, line + [LF]) == OnLine(typed, st, line)
  {
    FillBuffer(typed, st, line);
    FeedAppend(typed, st, line, [LF]);
    var mid := st.(buffer := line);
    assert [] + line == line;
    assert [LF][1..] == [];
    assert mid.(buffer := []) == st;
    var o := OnLine(typed, st, line);
    if o.Fine? {
      assert o.events + [] == o.events;
    }
    AfterNothing(o);
  }

  lemma FeedLine(typed: bool, st: State, line: bytes, rest: bytes)
    requires st.buffer == [] && NoLf(line) && OnLine(typed, st, line).Fine?
    ensures
      var o := OnLine(typed, st, line);
      Feed(typed, st, line + [LF] + rest) == After(o.events, Feed(typed, o.state, rest))
  {
    FeedOneLine(typed, st, line);
    FeedAppend(typed, st, line + [LF], rest);
  }

  lemma {:induction false} FillBuffer(typed: bool, st: State, line: bytes)
    requires NoLf(line)
    ensures Feed(typed, st, line) == Fine(st.(buffer := st.buffer + line), [])
    decreases |line|
  {
    if line == [] {
      assert st.buffer + line == st.buffer;
    } else {
      var st1 := st.(buffer := st.buffer + [line[0]]);
      FillBuffer(typed, st1, line[1..]);
      assert st.buffer + [line[0]] + line[1..] == st.buffer + line;
    }
  }

  lemma WholeLinesTail(ls: seq<bytes>)
    requires WholeLines(ls) && ls != []
    ensures Valid(ls[0]) && NoLf(ls[0]) && WholeLines(ls[1..])
  {
  }

  lemma DataLinesCons(ls: seq<bytes>, rest: bytes)
    requires ls != []
    ensures DataLines(ls) + rest == DATA + [SPACE] + ls[0] + [LF] + (DataLines(ls[1..]) + rest)
  {
  }

  lemma StripAllCons(data: seq<bytes>, ls: seq<bytes>)
    requires ls != []
    ensures data + StripAll(ls) == data + [StripCr(ls[0])] + StripAll(ls[1..])
  {
  }

  lemma FeedDataLine(typed: bool, st: State, value: bytes, rest: bytes)
    requires st.buffer == [] && Valid(value) && NoLf(value)
    ensures Feed(typed, st, DATA + [SPACE] + value + [LF] + rest)
            == Feed(typed, st.(data := st.data + [StripCr(value)]), rest)
  {
    DataLineIsData(typed, value);
    FeedLine(typed, st, DATA + [SPACE] + value, rest);
    AfterNothing(Feed(typed, st.(data := st.data + [StripCr(value)]), rest));
  }

  lemma {:induction false} FeedDataLines(typed: bool, st: State, ls: seq<bytes>, rest: bytes)
    requires st.buffer == [] && WholeLines(ls)
    ensures Feed(typed, st, DataLines(ls) + rest) == Feed(typed, st.(data := st.data + StripAll(ls)), rest)
    decreases |ls|
  {
    if ls == [] {
      assert DataLines(ls) + rest == rest;
      assert st.data + [] == st.data;
    } else {
      WholeLinesTail(ls);
      DataLinesCons(ls, rest);
      StripAllCons(st.data, ls);
      FeedDataLine(typed, st, ls[0], DataLines(ls[1..]) + rest);
      FeedDataLines(typed, st.(data := st.data + [StripCr(ls[0])]), ls[1..], rest);
    }
  }

  // The lines of a payload and the blank line after them.
  lemma FeedBody(typed: bool, kind: Option<bytes>, data: bytes, rest: bytes)
    requires Valid(data)
    ensures Feed(typed, Empty.(kind := kind), DataLines(Split(data)) + ([LF] + rest))
            == After([Event(kind, Join(StripAll(Split(data))))], Feed(typed, Empty, rest))
  {
    var st := Empty.(kind := kind);
    var ls := Split(data);
    SplitIsValid(data);
    FeedDataLines(typed, st, ls, [LF] + rest);
    assert st.data + StripAll(ls) == StripAll(ls);
    var full := st.(data := StripAll(ls));
    assert [] + [LF] + rest == [LF] + rest;
    FeedLine(typed, full, [], rest);
  }

  lemma Nested(head: bytes, data: bytes, rest: bytes)
    ensures head + data + [LF] + rest == head + (data + ([LF] + rest))
    ensures [] + (data + ([LF] + rest)) == data + ([LF] + rest)
  {
  }

  // A type line, which one parser notes and the other skips.
  lemma FeedTypeLine(typed: bool, kind: bytes, rest: bytes)
    requires NoLf(kind) && (typed ==> Valid(kind))
    ensures Feed(typed, Empty, EVENT + [SPACE] + kind + [LF] + rest)
            == Feed(typed, Empty.(kind := if typed then Some(StripCr(kind)) else None), rest)
  {
    if typed {
      KindLineIsKind(kind);
    } else {
      KindLineIsSkipped(kind);
    }
    FeedLine(typed, Empty, EVENT + [SPACE] + kind, rest);
    AfterNothing(Feed(typed, Empty.(kind := if typed then Some(StripCr(kind)) else None), rest));
  }

  lemma FeedEvent(typed: bool, e: Event, rest: bytes)
    requires Writable(typed, e)
    ensures Feed(typed, Empty, Write(e) + rest) == After([Received(typed, e)], Feed(typed, Empty, rest))
  {
    var body := DataLines(Split(e.data)) + ([LF] + rest);
    if e.kind.Some? {
      Nested(EVENT + [SPACE] + e.kind.value + [LF], DataLines(Split(e.data)), rest);
      FeedTypeLine(typed, e.kind.value, body);
    } else {
      Nested([], DataLines(Split(e.data)), rest);
    }
    FeedBody(typed, Received(typed, e).kind, e.data, rest);
  }

  predicate AllWritable(typed: bool, es: seq<Event>) {
    forall i :: 0 <= i < |es| ==> Writable(typed, es[i])
  }

  lemma {:induction false} FeedAllEvents(typed: bool, es: seq<Event>)
    requires AllWritable(typed, es)
    ensures Feed(typed, Empty, WriteAll(es)) == Fine(Empty, ReceivedAll(typed, es))
  {
    if es != [] {
      FeedEvent(typed, es[0], WriteAll(es[1..]));
      FeedAllEvents(typed, es[1..]);
    }
  }

  // Written events, cut anywhere, come back as they are received.
  lemma WrittenEventsComeBack(typed: bool, es: seq<Event>, chunks: seq<bytes>)
    requires AllWritable(typed, es) && Concat(chunks) == WriteAll(es)
    ensures ResultOf(Drive(typed, Empty, chunks)) == Ok(ReceivedAll(typed, es))
  {
    CutsDoNotMatter(typed, Empty, chunks);
    FeedAllEvents(typed, es);
    assert ReceivedAll(typed, es) + [] == ReceivedAll(typed, es);
  }

  // No line of the payload ends in a carriage return ...
  predicate DataSafe(e: Event) {
    forall i :: 0 <= i < |Split(e.data)| ==> StripCr(Split(e.data)[i]) == Split(e.data)[i]
  }

  // ... nor does the event type.
  predicate CrSafe(e: Event) {
    DataSafe(e) && (e.kind.Some? ==> StripCr(e.kind.value) == e.kind.value)
  }

  lemma {:induction false} JoinSplit(s: bytes)
    ensures Join(Split(s)) == s
  {
    if s != [] {
      JoinSplit(s[1..]);
      var rest := Split(s[1..]);
      if s[0] == LF {
        assert ([[]] + rest)[1..] == rest;
      } else if |rest| > 1 {
        assert ([[s[0]] + rest[0]] + rest[1..])[1..] == rest[1..];
      }
    }
  }

  lemma {:induction false} JoinedLength(ls: seq<bytes>)
    ensures |Join(StripAll(ls))| <= |Join(ls)|
    ensures |Join(StripAll(ls))| == |Join(ls)| <==> forall i :: 0 <= i < |ls| ==> StripCr(ls[i]) == ls[i]
    ensures |StripAll(ls)| == |ls|
  {
    if ls != [] {
      JoinedLength(ls[1..]);
      assert StripAll(ls)[1..] == StripAll(ls[1..]);
      assert forall i :: 1 <= i < |ls| ==> ls[i] == ls[1..][i - 1];
      assert (forall i :: 0 <= i < |ls| ==> StripCr(ls[i]) == ls[i]) <==>
             StripCr(ls[0]) == ls[0] && forall i :: 0 <= i < |ls[1..]| ==> StripCr(ls[1..][i]) == ls[1..][i];
    }
  }

  lemma {:induction false} StripAllNeutral(ls: seq<bytes>)
    requires forall i :: 0 <= i < |ls| ==> StripCr(ls[i]) == ls[i]
    ensures StripAll(ls) == ls
  {
    if ls != [] {
      StripAllNeutral(ls[1..]);
    }
  }

  lemma DataReceivedExactly(e: Event)
    ensures Join(StripAll(Split(e.data))) == e.data <==> DataSafe(e)
  {
    JoinSplit(e.data);
    JoinedLength(Split(e.data));
    if DataSafe(e) {
      StripAllNeutral(Split(e.data));
    }
  }

  lemma AllSafeCons(es: seq<Event>)
    requires es != []
    ensures (forall i :: 0 <= i < |es| ==> CrSafe(es[i])) <==>
            CrSafe(es[0]) && forall i :: 0 <= i < |es[1..]| ==> CrSafe(es[1..][i])
    ensures (forall i :: 0 <= i < |es| ==> DataSafe(es[i])) <==>
            DataSafe(es[0]) && forall i :: 0 <= i < |es[1..]| ==> DataSafe(es[1..][i])
  {
    assert forall i :: 1 <= i < |es| ==> es[i] == es[1..][i - 1];
  }

  lemma {:induction false} ReceivedAllExactly(es: seq<Event>)
    ensures ReceivedAll(true, es) == es <==> forall i :: 0 <= i < |es| ==> CrSafe(es[i])
  {
    if es != [] {
      ReceivedAllExactly(es[1..]);
      DataReceivedExactly(es[0]);
      assert Received(true, es[0]) == es[0] <==> CrSafe(es[0]);
      assert es == [es[0]] + es[1..];
      assert ReceivedAll(true, es)[1..] == ReceivedAll(true, es[1..]);
      AllSafeCons(es);
    }
  }

  lemma {:induction false} PayloadsReceivedExactly(es: seq<Event>)
    ensures |Payloads(ReceivedAll(false, es))| == |es| == |Payloads(es)|
    ensures Payloads(ReceivedAll(false, es)) == Payloads(es) <==> forall i :: 0 <= i < |es| ==> DataSafe(es[i])
  {
    if es != [] {
      var tail := ReceivedAll(false, es[1..]);
      PayloadsReceivedExactly(es[1..]);
      DataReceivedExactly(es[0]);
      assert ReceivedAll(false, es)[1..] == tail;
      PayloadCons(Received(false, es[0]).data, Payloads(tail), es[0].data, Payloads(es[1..]));
      AllSafeCons(es);
    }
  }

  lemma PayloadCons(a: bytes, s: seq<bytes>, b: bytes, t: seq<bytes>)
    ensures [a] + s == [b] + t <==> a == b && s == t
  {
    assert ([a] + s)[0] == a && ([a] + s)[1..] == s && ([b] + t)[0] == b && ([b] + t)[1..] == t;
  }

  // The round trip is exact precisely for events without a carriage return before a line end.
  lemma RoundTrip(es: seq<Event>, chunks: seq<bytes>)
    requires AllWritable(true, es) && Concat(chunks) == WriteAll(es)
    ensures ResultOf(Drive(true, Empty, chunks)) == Ok(es) <==> forall i :: 0 <= i < |es| ==> CrSafe(es[i])
  {
    WrittenEventsComeBack(true, es, chunks);
    ReceivedAllExactly(es);
  }

  // The data parser returns exactly the payloads, whatever the types are, precisely when no payload line
  // ends in a carriage return.
  lemma DataRoundTrip(es: seq<Event>, chunks: seq<bytes>)
    requires AllWritable(false, es) && Concat(chunks) == WriteAll(es)
    ensures ResultOf(Drive(false, Empty, chunks)).Ok?
    ensures Payloads(ResultOf(Drive(false, Empty, chunks)).value) == Payloads(es) <==>
            forall i :: 0 <= i < |es| ==> DataSafe(es[i])
  {
    WrittenEventsComeBack(false, es, chunks);
    PayloadsReceivedExactly(es);
  }
}
