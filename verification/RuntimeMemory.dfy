/** How the agent runtime keeps its conversation in the memory store. */
module RuntimeMemory {
  import opened Common
  import opened EventRows
  import opened Memory
  import opened MemoryRuns
  import opened IndexClashes

  function SaturatingNext(n: nat): nat {
    if n < U64_MAX then n + 1 else U64_MAX
  }

  // -------------------------------------------------------------------------
  // What is stored of a message: everything but its attachments' bytes
  // -------------------------------------------------------------------------

  function Cleared(a: Attachment): Attachment {
    a.(data := [])
  }

  function Stripped(m: Message): Message {
    m.(attachments := seq(|m.attachments|, i requires 0 <= i < |m.attachments| => Cleared(m.attachments[i])))
  }

  method ClearAttachments(m: Message) returns (r: Message)
    ensures r == Stripped(m) && StoredWithoutBytes(r, m)
  {
    var attachments := m.attachments;
    for i := 0 to |attachments|
      invariant |attachments| == |m.attachments|
      invariant forall j :: 0 <= j < |attachments| ==>
                  attachments[j] == if j < i then Cleared(m.attachments[j]) else m.attachments[j]
    {
      attachments := attachments[i := attachments[i].(data := [])];
    }
    r := m.(attachments := attachments);
  }

  // -------------------------------------------------------------------------
  // The three operations; a null store stands for no store or no session
  // -------------------------------------------------------------------------

  function NextSequenceOf(recalled: Recalled): Option<nat> {
    match recalled
    case Records(rows) => if rows == [] then Some(1) else Some(SaturatingNext(rows[|rows| - 1].sequence))
    case NotFound => Some(1)
    case QueryError => None
  }

  method NextMemorySequence(memory: LibsqlMemory?) returns (r: Result<nat>)
    ensures memory == null || memory.events == map[] ==> r == Ok(1)
    ensures memory != null && memory.events != map[] ==> r == Ok(SaturatingNext(Largest(memory.events.Keys)))
  {
    if memory == null {
      return Ok(1);
    }
    var recalled := memory.Recall(Some(1));
    NextSequenceIsPastNewest(memory.events);
    match recalled
    case Records(rows) =>
      if rows == [] {
        return Ok(1);
      }
      return Ok(SaturatingNext(rows[|rows| - 1].sequence));
    case NotFound => return Ok(1);
    case QueryError => return Err;
  }

  datatype Progress = Progress(db: Tables, next: nat, ok: bool)

  ghost function PersistOne(db: Tables, next: nat, m: Message): Progress {
    match Store(db, next, Stripped(m))
    case None => Progress(db, next, false)
    case Some(stored) => Progress(stored, SaturatingNext(next), true)
  }

  // Stops at the first message that the store rejects.
  ghost function PersistAll(p: Progress, messages: seq<Message>): Progress {
    if messages == [] then p
    else
      var before := PersistAll(p, messages[..|messages| - 1]);
      if before.ok then PersistOne(before.db, before.next, messages[|messages| - 1]) else before
  }

  function Tail(next: nat, messages: seq<Message>): seq<Message> {
    var persisted := if next == 0 then 0 else next - 1;
    if persisted <= |messages| then messages[persisted..] else []
  }

  method PersistMessageIfNeeded(memory: LibsqlMemory?, next: nat, m: Message) returns (ok: bool, after: nat)
    requires memory != null ==> memory.Valid()
    modifies if memory == null then {} else {memory}
    ensures memory == null ==> ok && after == next
    ensures memory != null ==>
              memory.Valid() && Progress(memory.View(), after, ok) == PersistOne(old(memory.View()), next, m)
  {
    if memory == null {
      return true, next;
    }
    var stripped := ClearAttachments(m);
    var r := memory.StoreMessage(next, stripped);
    if r.Err? {
      return false, next;
    }
    return true, SaturatingNext(next);
  }

  method PersistContextTailIfNeeded(memory: LibsqlMemory?, next: nat, messages: seq<Message>)
    returns (ok: bool, after: nat)
    requires memory != null ==> memory.Valid()
    modifies if memory == null then {} else {memory}
    ensures memory == null ==> ok && after == next
    ensures memory != null ==>
              && memory.Valid()
              && Progress(memory.View(), after, ok) == PersistTail(Progress(old(memory.View()), next, true), messages)
  {
    if memory == null {
      return true, next;
    }
    var tail := Tail(next, messages);
    ok, after := true, next;
    ghost var start := Progress(memory.View(), next, true);
    for i := 0 to |tail|
      invariant memory.Valid() && ok
      invariant Progress(memory.View(), after, true) == PersistAll(start, tail[..i])
    {
      assert tail[..i + 1][..i] == tail[..i];
      ok, after := PersistMessageIfNeeded(memory, after, tail[i]);
      if !ok {
        StaysFailed(start, tail, i + 1);
        return;
      }
    }
    assert tail[..|tail|] == tail;
  }

  lemma {:induction false} StaysFailed(p: Progress, messages: seq<Message>, n: nat)
    requires n <= |messages| && !PersistAll(p, messages[..n]).ok
    ensures PersistAll(p, messages) == PersistAll(p, messages[..n])
    decreases |messages| - n
  {
    if n == |messages| {
      assert messages[..n] == messages;
    } else {
      assert messages[..n + 1][..n] == messages[..n];
      StaysFailed(p, messages, n + 1);
    }
  }

  // -------------------------------------------------------------------------
  // The conversation in the store
  // -------------------------------------------------------------------------

  function StrippedAll(messages: seq<Message>): (r: seq<Message>)
    ensures |r| == |messages| && forall i :: 0 <= i < |r| ==> r[i] == Stripped(messages[i])
  {
    seq(|messages|, i requires 0 <= i < |messages| => Stripped(messages[i]))
  }

  ghost predicate Holds(db: Tables, messages: seq<Message>) {
    Numbered(db.events, StrippedAll(messages))
  }

  predicate MessagesWithin(messages: seq<Message>, hs: set<Hash>) {
    forall i :: 0 <= i < |messages| ==> Within(messages[i].chunks, hs)
  }

  // All messages so far went in.
  ghost predicate Done(p: Progress, hs: set<Hash>, messages: seq<Message>) {
    p.ok && p.next == |messages| + 1 && Holds(p.db, messages) && Settled(p.db, hs)
  }

  lemma OneMoreDone(p: Progress, hs: set<Hash>, messages: seq<Message>, m: Message)
    requires ToldApart(hs) && Within(m.chunks, hs)
    requires Done(p, hs, messages) && |messages| < I64_MAX
    ensures Done(PersistOne(p.db, p.next, m), hs, messages + [m])
  {
    var db, sequence, stored := p.db, p.next, Stripped(m);
    MessagesNeverClash(db, hs, sequence, stored);
    OperationSettles(db, hs, StoreOp(sequence, stored));
    IndexingTouchesTheIndexOnly(WithMessage(db, sequence, stored), MessageDocument(sequence, stored));
    OneMoreNumbered(db.events, StrippedAll(messages), stored);
    assert StrippedAll(messages + [m]) == StrippedAll(messages) + [stored];
  }

  lemma OneMoreNumbered<T(!new)>(rows: map<nat, T>, s: seq<T>, x: T)
    requires Numbered(rows, s)
    ensures Numbered(rows[|s| + 1 := x], s + [x])
  {
  }

  lemma {:induction false} AllDone(p: Progress, hs: set<Hash>, known: seq<Message>, more: seq<Message>)
    requires ToldApart(hs) && MessagesWithin(more, hs)
    requires Done(p, hs, known) && |known| + |more| <= I64_MAX
    ensures Done(PersistAll(p, more), hs, known + more)
    decreases |more|
  {
    if more == [] {
      assert known + more == known;
    } else {
      var front, m := more[..|more| - 1], more[|more| - 1];
      AllDone(p, hs, known, front);
      OneMoreDone(PersistAll(p, front), hs, known + front, m);
      assert known + front + [m] == known + more;
    }
  }

  // The stored message is the original, its attachments without their bytes.
  predicate StoredWithoutBytes(e: Message, m: Message) {
    && e.role == m.role && e.text == m.text && e.toolCallId == m.toolCallId && e.chunks == m.chunks
    && |e.attachments| == |m.attachments|
    && forall i :: 0 <= i < |m.attachments| ==>
         e.attachments[i].kind == m.attachments[i].kind && e.attachments[i].data == []
  }

  lemma HeldWithoutBytes(db: Tables, messages: seq<Message>)
    requires Holds(db, messages)
    ensures forall i :: 0 <= i < |messages| ==> i + 1 in db.events && StoredWithoutBytes(db.events[i + 1], messages[i])
  {
    forall i | 0 <= i < |messages| ensures i + 1 in db.events && StoredWithoutBytes(db.events[i + 1], messages[i]) {
      assert i + 1 in db.events;
      assert db.events[i + 1] == StrippedAll(messages)[i];
      assert StrippedAll(messages)[i] == Stripped(messages[i]);
    }
  }

  // The effect of persisting the tail.
  ghost function PersistTail(p: Progress, messages: seq<Message>): Progress {
    PersistAll(p, Tail(p.next, messages))
  }

  lemma NothingLeft(p: Progress, messages: seq<Message>)
    requires p.next == |messages| + 1
    ensures PersistTail(p, messages) == p
  {
  }

  lemma TailHolds(db: Tables, hs: set<Hash>, messages: seq<Message>, k: nat)
    requires ToldApart(hs) && Settled(db, hs) && MessagesWithin(messages, hs)
    requires k <= |messages| <= I64_MAX && Holds(db, messages[..k])
    ensures var p := PersistTail(Progress(db, k + 1, true), messages);
            p.ok && p.next == |messages| + 1 && Holds(p.db, messages)
  {
    AllDone(Progress(db, k + 1, true), hs, messages[..k], messages[k..]);
    assert messages[..k] + messages[k..] == messages;
  }

  // The next sequence, worked out from the store.
  function NextSequence(events: map<nat, Message>): Option<nat> {
    NextSequenceOf(RecallOf(events, Some(1)))
  }

  // One past the newest event, whatever the events are; 1 in an empty store.
  lemma NextSequenceIsPastNewest(events: map<nat, Message>)
    ensures NextSequence(events) == Some(if events == map[] then 1 else SaturatingNext(Largest(events.Keys)))
  {
  }

  lemma NextSequenceFollows(db: Tables, messages: seq<Message>)
    requires Holds(db, messages) && |messages| <= I64_MAX
    ensures NextSequence(db.events) == Some(|messages| + 1)
  {
    NumberedAscending(db.events, StrippedAll(messages));
  }

  /**
   In a store that holds the first k messages under 1..k, and is otherwise as any run may leave
   it, persisting the tail is never refused and leaves all n messages there under 1..n; doing it
   again stores nothing; and the next sequence worked out afresh is, before and after, the one
   the runtime has.
   */
  lemma TailIsPersisted(db: Tables, hs: set<Hash>, messages: seq<Message>, k: nat)
    requires ToldApart(hs) && Settled(db, hs) && MessagesWithin(messages, hs)
    requires k <= |messages| <= I64_MAX && Holds(db, messages[..k])
    ensures NextSequence(db.events) == Some(k + 1)
    ensures var p := PersistTail(Progress(db, k + 1, true), messages);
            && p.ok && p.next == |messages| + 1
            && Holds(p.db, messages)
            && PersistTail(p, messages) == p
            && NextSequence(p.db.events) == Some(p.next)
            && forall i :: 0 <= i < |messages| ==>
                 i + 1 in p.db.events && StoredWithoutBytes(p.db.events[i + 1], messages[i])
  {
    TailHolds(db, hs, messages, k);
    NextSequenceFollows(db, messages[..k]);
    var p := PersistTail(Progress(db, k + 1, true), messages);
    NothingLeft(p, messages);
    NextSequenceFollows(p.db, messages);
    HeldWithoutBytes(p.db, messages);
  }

  /**
   Recall: without a limit every event once, in order of sequence; with a limit the last of those,
   however many there are; nothing to return is an error either way.
   */
  lemma RecallReturnsTheLast(events: map<nat, Message>, limit: nat)
    requires limit <= I64_MAX
    ensures RecallOf(events, None).Records? <==> events != map[]
    ensures RecallOf(events, None).Records? ==> Lists(RecallOf(events, None).rows, events)
    ensures RecallOf(events, Some(limit)) ==
            if events == map[] || limit == 0 then NotFound else Records(LastOf(RecallOf(events, None).rows, limit))
  {
    AscendingLists(events);
    if events != map[] {
      var n :| n in events;
      assert Has(Ascending(events), n);
    }
  }
}
