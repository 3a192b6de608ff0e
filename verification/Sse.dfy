/**
 The incremental server-sent-event parsers of the providers.

 `SseEventParser` keeps `event:` and `data:` lines; `SseDataParser` keeps `data:` lines only.
 Both share one specification, in which `typed` says whether `event:` lines are recognised.
 Strings are UTF-8 byte strings.
 */
module Sse {
  import opened Common
  import opened Utf8

  const COLON: byte := 58
  const EVENT: bytes := [101, 118, 101, 110, 116, 58]   // event:
  const DATA: bytes := [100, 97, 116, 97, 58]           // data:

  datatype Event = Event(kind: Option<bytes>, data: bytes)

  // -------------------------------------------------------------------------
  // Lines
  // -------------------------------------------------------------------------

  datatype Line = Blank | Skip | Data(value: bytes) | Kind(value: bytes) | Bad

  function StripCr(line: bytes): bytes {
    if |line| > 0 && line[|line| - 1] == CR then line[..|line| - 1] else line
  }

  function TrimSpace(v: bytes): bytes {
    if |v| > 0 && v[0] == SPACE then v[1..] else v
  }

  function Classify(typed: bool, raw: bytes): Line {
    var line := StripCr(raw);
    if line == [] then Blank
    else if line[0] == COLON then Skip
    else if typed && EVENT <= line then
      (if Valid(TrimSpace(line[6..])) then Kind(TrimSpace(line[6..])) else Bad)
    else if DATA <= line then
      (if Valid(TrimSpace(line[5..])) then Data(TrimSpace(line[5..])) else Bad)
    else Skip
  }

  function Join(lines: seq<bytes>): bytes {
    if lines == [] then []
    else if |lines| == 1 then lines[0]
    else lines[0] + [LF] + Join(lines[1..])
  }

  // -------------------------------------------------------------------------
  // The incremental machine, one byte at a time
  // -------------------------------------------------------------------------

  datatype State = State(buffer: bytes, kind: Option<bytes>, data: seq<bytes>)

  const Empty: State := State([], None, [])

  // Either a new state and the events emitted on the way, or the state in which a line failed to decode.
  datatype Outcome = Fine(state: State, events: seq<Event>) | Failed(state: State)

  function Flush(st: State): Outcome {
    if st.data != [] then Fine(State(st.buffer, None, []), [Event(st.kind, Join(st.data))])
    else Fine(st.(kind := None), [])
  }

  function OnLine(typed: bool, st: State, raw: bytes): Outcome {
    match Classify(typed, raw)
    case Blank => Flush(st)
    case Skip => Fine(st, [])
    case Data(v) => Fine(st.(data := st.data + [v]), [])
    case Kind(v) => Fine(st.(kind := Some(v)), [])
    case Bad => Failed(st)
  }

  function OnByte(typed: bool, st: State, b: byte): Outcome {
    if b == LF then OnLine(typed, st.(buffer := []), st.buffer)
    else Fine(st.(buffer := st.buffer + [b]), [])
  }

  // Events already emitted, put before those of the rest of the run.
  function After(events: seq<Event>, rest: Outcome): Outcome {
    match rest
    case Failed(_) => rest
    case Fine(st, more) => Fine(st, events + more)
  }

  function Feed(typed: bool, st: State, bs: bytes): Outcome
    decreases |bs|
  {
    if bs == [] then Fine(st, [])
    else
      match OnByte(typed, st, bs[0])
      case Failed(st') => Failed(st')
      case Fine(st', events) => After(events, Feed(typed, st', bs[1..]))
  }

  function AtEnd(typed: bool, st: State): Outcome {
    if st.buffer == [] then Flush(st)
    else
      match OnLine(typed, st.(buffer := []), st.buffer)
      case Failed(st') => Failed(st')
      case Fine(st', events) => After(events, Flush(st'))
  }

  // A parser driven by a list of chunks and then finished; it stops at the first error.
  function Drive(typed: bool, st: State, chunks: seq<bytes>): Outcome
    decreases |chunks|
  {
    if chunks == [] then AtEnd(typed, st)
    else
      match Feed(typed, st, chunks[0])
      case Failed(st') => Failed(st')
      case Fine(st', events) => After(events, Drive(typed, st', chunks[1..]))
  }

  function Concat(chunks: seq<bytes>): bytes {
    if chunks == [] then [] else chunks[0] + Concat(chunks[1..])
  }

  // -------------------------------------------------------------------------
  // The parsers
  // -------------------------------------------------------------------------

  class SseEventParser {
    var lineBuffer: bytes
    var eventType: Option<bytes>
    var dataLines: seq<bytes>

    function View(): State
      reads this
    {
      State(lineBuffer, eventType, dataLines)
    }

    constructor ()
      ensures View() == Empty
    {
      lineBuffer, eventType, dataLines := [], None, [];
    }

    method PushChunk(chunk: bytes) returns (r: Result<seq<Event>>)
      modifies this
      ensures View() == Feed(true, old(View()), chunk).state
      ensures match Feed(true, old(View()), chunk)
              case Fine(_, events) => r == Ok(events)
              case Failed(_) => r == Err
    {
      var events := [];
      for i := 0 to |chunk|
        invariant Feed(true, old(View()), chunk) == After(events, Feed(true, View(), chunk[i..]))
      {
        ghost var done := events;
        var more := PushByte(chunk[i]);
        if more.Err? {
          return Err;
        }
        events := events + more.value;
        AfterAfter(done, more.value, Feed(true, View(), chunk[i..][1..]));
        assert chunk[i..][1..] == chunk[i + 1..];
      }
      assert events + [] == events;
      return Ok(events);
    }

    method PushByte(b: byte) returns (r: Result<seq<Event>>)
      modifies this
      ensures View() == OnByte(true, old(View()), b).state
      ensures match OnByte(true, old(View()), b)
              case Fine(_, events) => r == Ok(events)
              case Failed(_) => r == Err
    {
      if b == LF {
        var line := lineBuffer;
        lineBuffer := [];
        r := ProcessLine(line);
      } else {
        lineBuffer := lineBuffer + [b];
        r := Ok([]);
      }
    }

    method Finish() returns (r: Result<seq<Event>>)
      modifies this
      ensures match AtEnd(true, old(View()))
              case Fine(_, events) => r == Ok(events)
              case Failed(_) => r == Err
    {
      var events := [];
      if lineBuffer != [] {
        var line := lineBuffer;
        lineBuffer := [];
        var first := ProcessLine(line);
        if first.Err? {
          return Err;
        }
        events := first.value;
      }
      var last := FlushEvent();
      assert [] + last == last;
      return Ok(events + last);
    }

    method ProcessLine(raw: bytes) returns (r: Result<seq<Event>>)
      modifies this
      ensures View() == OnLine(true, old(View()), raw).state
      ensures match OnLine(true, old(View()), raw)
              case Fine(_, events) => r == Ok(events)
              case Failed(_) => r == Err
    {
      var line := if |raw| > 0 && raw[|raw| - 1] == CR then raw[..|raw| - 1] else raw;
      if line == [] {
        var events := FlushEvent();
        return Ok(events);
      }
      if line[0] == COLON {
        return Ok([]);
      }
      if EVENT <= line {
        var value := line[6..];
        if |value| > 0 && value[0] == SPACE {
          value := value[1..];
        }
        if !Valid(value) {
          return Err;
        }
        eventType := Some(value);
        return Ok([]);
      }
      if DATA <= line {
        var data := line[5..];
        if |data| > 0 && data[0] == SPACE {
          data := data[1..];
        }
        if !Valid(data) {
          return Err;
        }
        dataLines := dataLines + [data];
      }
      return Ok([]);
    }

    method FlushEvent() returns (events: seq<Event>)
      modifies this
      ensures Fine(View(), events) == Flush(old(View()))
    {
      if dataLines != [] {
        events := [Event(eventType, Join(dataLines))];
        eventType := None;
        dataLines := [];
      } else {
        events := [];
        eventType := None;
      }
    }
  }

  class SseDataParser {
    var lineBuffer: bytes
    var dataLines: seq<bytes>

    function View(): State
      reads this
    {
      State(lineBuffer, None, dataLines)
    }

    constructor ()
      ensures View() == Empty
    {
      lineBuffer, dataLines := [], [];
    }

    method PushChunk(chunk: bytes) returns (r: Result<seq<bytes>>)
      modifies this
      ensures View() == Feed(false, old(View()), chunk).state
      ensures match Feed(false, old(View()), chunk)
              case Fine(_, events) => r == Ok(Payloads(events))
              case Failed(_) => r == Err
    {
      var payloads := [];
      ghost var events := [];
      for i := 0 to |chunk|
        invariant payloads == Payloads(events)
        invariant Feed(false, old(View()), chunk) == After(events, Feed(false, View(), chunk[i..]))
      {
        ghost var done := events;
        ghost var step := OnByte(false, View(), chunk[i]);
        var more := PushByte(chunk[i]);
        if more.Err? {
          return Err;
        }
        payloads := payloads + more.value;
        events := events + step.events;
        PayloadsAppend(done, step.events);
        AfterAfter(done, step.events, Feed(false, View(), chunk[i..][1..]));
        assert chunk[i..][1..] == chunk[i + 1..];
      }
      assert events + [] == events;
      return Ok(payloads);
    }

    method PushByte(b: byte) returns (r: Result<seq<bytes>>)
      modifies this
      ensures View() == OnByte(false, old(View()), b).state
      ensures match OnByte(false, old(View()), b)
              case Fine(_, events) => r == Ok(Payloads(events))
              case Failed(_) => r == Err
    {
      if b == LF {
        var line := lineBuffer;
        lineBuffer := [];
        r := ProcessLine(line);
      } else {
        lineBuffer := lineBuffer + [b];
        r := Ok([]);
      }
    }

    method Finish() returns (r: Result<seq<bytes>>)
      modifies this
      ensures match AtEnd(false, old(View()))
              case Fine(_, events) => r == Ok(Payloads(events))
              case Failed(_) => r == Err
    {
      var payloads := [];
      ghost var events := [];
      if lineBuffer != [] {
        var line := lineBuffer;
        lineBuffer := [];
        ghost var step := OnLine(false, View(), line);
        var first := ProcessLine(line);
        if first.Err? {
          return Err;
        }
        payloads := first.value;
        events := step.events;
      }
      PayloadsAppend(events, Flush(View()).events);
      assert [] + Flush(View()).events == Flush(View()).events;
      var last := FlushEvent();
      return Ok(payloads + last);
    }

    method ProcessLine(raw: bytes) returns (r: Result<seq<bytes>>)
      modifies this
      ensures View() == OnLine(false, old(View()), raw).state
      ensures match OnLine(false, old(View()), raw)
              case Fine(_, events) => r == Ok(Payloads(events))
              case Failed(_) => r == Err
    {
      var line := if |raw| > 0 && raw[|raw| - 1] == CR then raw[..|raw| - 1] else raw;
      if line == [] {
        var payloads := FlushEvent();
        return Ok(payloads);
      }
      if line[0] == COLON {
        return Ok([]);
      }
      if DATA <= line {
        var data := line[5..];
        if |data| > 0 && data[0] == SPACE {
          data := data[1..];
        }
        if !Valid(data) {
          return Err;
        }
        dataLines := dataLines + [data];
      }
      return Ok([]);
    }

    method FlushEvent() returns (payloads: seq<bytes>)
      modifies this
      ensures View() == Flush(old(View())).state
      ensures payloads == Payloads(Flush(old(View())).events)
    {
      payloads := [];
      if dataLines != [] {
        payloads := [Join(dataLines)];
        dataLines := [];
      }
    }
  }

  // Event types dropped.
  function Payloads(events: seq<Event>): seq<bytes> {
    if events == [] then [] else [events[0].data] + Payloads(events[1..])
  }

  lemma {:induction false} PayloadsAppend(a: seq<Event>, b: seq<Event>)
    ensures Payloads(a + b) == Payloads(a) + Payloads(b)
  {
    if a == [] {
      assert a + b == b;
    } else {
      assert (a + b)[0] == a[0] && (a + b)[1..] == a[1..] + b;
      PayloadsAppend(a[1..], b);
    }
  }

  lemma AfterAfter(a: seq<Event>, b: seq<Event>, o: Outcome)
    ensures After(a, After(b, o)) == After(a + b, o)
  {
    if o.Fine? {
      assert a + (b + o.events) == a + b + o.events;
    }
  }
}
