/**
 The memory store of one session: conversation events, session state and the chunk index.

 A transaction is one atomic step.  Content hashes are given with a message; everything a query
 filters by session is left implicit, as one session is modelled.
 */
module Memory {
  import opened Common
  import opened TextChunks
  import opened EventRows

  // Hexadecimal digest of a chunk's text.
  type Hash = s: string | |s| == 64 witness seq(64, i => '0')

  datatype Attachment = Attachment(kind: string, data: seq<int>)

  // `chunks` are the content hashes of the chunks under which the message's text is indexed.
  datatype Message = Message(
    role: string,
    text: string,
    toolCallId: Option<string>,
    attachments: seq<Attachment>,
    chunks: seq<Hash>)

  // `extra` stands for a note's source, tags and times.
  datatype Note = Note(id: string, text: string, chunks: seq<Hash>, extra: string)

  datatype ChunkId = ChunkId(sequence: nat, index: nat, prefix: string)

  datatype Metadata = Metadata(role: string, toolCallId: Option<string>, extra: string)

  datatype Chunk = Chunk(hash: Hash, note: Option<string>, first: nat, last: nat, metadata: Metadata)

  // Where a chunk was seen, and what is noted about it there.
  datatype Sighting = Sighting(sequence: nat, metadata: Metadata)

  type Index = map<ChunkId, Chunk>
  type Vectors = map<ChunkId, Hash>

  // A text prepared for the index.
  datatype Document = Document(hashes: seq<Hash>, note: Option<string>, seen: Sighting)

  // What makes two chunks the same: their text and the note they belong to.
  datatype Key = Key(hash: Hash, note: Option<string>)

  datatype Summary = Summary(epoch: nat, upper: nat, text: string)

  datatype Tables = Tables(
    events: map<nat, Message>,
    lastSequence: Option<nat>,
    summary: Option<Summary>,
    scratchpad: Option<seq<string>>,
    chunks: Index,
    vectors: Vectors)

  const EmptyTables := Tables(map[], None, None, None, map[], map[])

  function KeyOf(c: Chunk): Key {
    Key(c.hash, c.note)
  }

  // -------------------------------------------------------------------------
  // Indexing
  // -------------------------------------------------------------------------

  ghost predicate IsChunkWith(chunks: Index, k: Key, id: ChunkId) {
    id in chunks && KeyOf(chunks[id]) == k
  }

  ghost predicate Known(chunks: Index, k: Key) {
    exists id :: IsChunkWith(chunks, k, id)
  }

  // The chunk that the lookup finds; one per key, by the invariant below.
  ghost function Find(chunks: Index, k: Key): ChunkId
    requires Known(chunks, k)
  {
    var id :| IsChunkWith(chunks, k, id);
    id
  }

  function Max(a: nat, b: nat): nat {
    if a < b then b else a
  }

  // A note's metadata is replaced, a message's kept.
  function Touched(c: Chunk, s: Sighting): Chunk {
    c.(last := Max(c.last, s.sequence), metadata := if c.note.Some? then s.metadata else c.metadata)
  }

  function NewRow(k: Key, s: Sighting): Chunk {
    Chunk(k.hash, k.note, s.sequence, s.sequence, s.metadata)
  }

  function KeyAt(d: Document, index: nat): Key
    requires index < |d.hashes|
  {
    Key(d.hashes[index], d.note)
  }

  function RowIdAt(d: Document, index: nat): ChunkId
    requires index < |d.hashes|
  {
    ChunkId(d.seen.sequence, index, d.hashes[index][..16])
  }

  // One chunk of a document; None when the primary key is taken.
  ghost function IndexOne(db: Tables, d: Document, index: nat): Option<Tables>
    requires index < |d.hashes|
  {
    var k := KeyAt(d, index);
    if Known(db.chunks, k) then
      var id := Find(db.chunks, k);
      Some(db.(chunks := db.chunks[id := Touched(db.chunks[id], d.seen)]))
    else
      var id := RowIdAt(d, index);
      if id in db.chunks then None
      else Some(db.(chunks := db.chunks[id := NewRow(k, d.seen)], vectors := db.vectors[id := k.hash]))
  }

  // A document from its chunk number `index` on.
  ghost function IndexFrom(db: Tables, d: Document, index: nat): Option<Tables>
    requires index <= |d.hashes|
    decreases |d.hashes| - index
  {
    if index == |d.hashes| then Some(db)
    else
      match IndexOne(db, d, index)
      case None => None
      case Some(db1) => IndexFrom(db1, d, index + 1)
  }

  // -------------------------------------------------------------------------
  // Transactions; None is an error, which rolls back
  // -------------------------------------------------------------------------

  // The sequence lies above all stored ones.
  predicate Above(events: map<nat, Message>, sequence: nat) {
    forall n :: n in events ==> n < sequence
  }

  function MessageDocument(sequence: nat, m: Message): Document {
    Document(m.chunks, None, Sighting(sequence, Metadata(m.role, m.toolCallId, "")))
  }

  function WithMessage(db: Tables, sequence: nat, m: Message): Tables {
    db.(events := db.events[sequence := m], lastSequence := Some(sequence))
  }

  ghost function Store(db: Tables, sequence: nat, m: Message): Option<Tables> {
    if sequence > I64_MAX || !Above(db.events, sequence) then None
    else IndexFrom(WithMessage(db, sequence, m), MessageDocument(sequence, m), 0)
  }

  predicate Blank(s: string) {
    forall i :: 0 <= i < |s| ==> IsSpace(s[i])
  }

  // A note is stored as a message of the user with the note's id in place of a tool call's.
  function NoteMessage(n: Note): Message {
    Message("user", n.text, Some(n.id), [], n.chunks)
  }

  function NoteDocument(sequence: nat, n: Note): Document {
    Document(n.chunks, Some(n.id), Sighting(sequence, Metadata("user", Some(n.id), n.extra)))
  }

  function WithNote(db: Tables, sequence: nat, n: Note): Tables {
    db.(events := db.events[sequence := NoteMessage(n)])
  }

  // The sequence of a note is read before the transaction starts, so any sequence may arrive here.
  ghost function StoreNote(db: Tables, sequence: nat, n: Note): Option<Tables> {
    if Blank(n.id) || Blank(n.text) || sequence > I64_MAX || sequence in db.events then None
    else IndexFrom(WithNote(db, sequence, n), NoteDocument(sequence, n), 0)
  }

  function DeleteNote(db: Tables, note: string): Tables {
    var gone := set id | id in db.chunks && db.chunks[id].note == Some(note);
    db.(events := map n | n in db.events && db.events[n].toolCallId != Some(note) :: db.events[n],
        chunks := db.chunks - gone,
        vectors := db.vectors - gone)
  }

  datatype SummaryWrite = SummaryWrite(expected: nat, next: nat, upper: nat, text: string)

  function EpochOf(s: Option<Summary>): nat {
    if s.Some? then s.value.epoch else 0
  }

  // None is an error; otherwise whether the write was applied, with the new tables.
  function WriteSummary(db: Tables, w: SummaryWrite): Option<(Tables, bool)> {
    if w.next <= w.expected then None
    else if EpochOf(db.summary) != w.expected then Some((db, false))
    else if db.summary.Some? && w.upper < db.summary.value.upper then None
    else Some((db.(summary := Some(Summary(w.next, w.upper, w.text))), true))
  }

  datatype Recalled = Records(rows: seq<Row<Message>>) | NotFound | QueryError

  function RecordsOr(rows: seq<Row<Message>>): Recalled {
    if rows == [] then NotFound else Records(rows)
  }

  // Oldest first, whether limited to the newest or not.
  function RecallOf(events: map<nat, Message>, limit: Option<nat>): Recalled {
    match limit
    case None => RecordsOr(Ascending(events))
    case Some(n) => if n > I64_MAX then QueryError else RecordsOr(LastOf(Ascending(events), n))
  }

  // -------------------------------------------------------------------------
  // The store
  // -------------------------------------------------------------------------

  ghost predicate OneChunkPerKey(chunks: Index) {
    forall a, b :: a in chunks && b in chunks && KeyOf(chunks[a]) == KeyOf(chunks[b]) ==> a == b
  }

  lemma IndexOneKeepsTables(db: Tables, d: Document, index: nat)
    requires index < |d.hashes|
    requires OneChunkPerKey(db.chunks) && db.vectors.Keys == db.chunks.Keys
    ensures var r := IndexOne(db, d, index);
            r.Some? ==> OneChunkPerKey(r.value.chunks) && r.value.vectors.Keys == r.value.chunks.Keys
  {
    var r := IndexOne(db, d, index);
    var k := KeyAt(d, index);
    if r.Some? && !Known(db.chunks, k) {
      forall a | a in db.chunks ensures KeyOf(db.chunks[a]) != k {
        assert !IsChunkWith(db.chunks, k, a);
      }
    }
  }

  // Whether a deletion removed something shows in the number of events or in the chunks gone.
  lemma DeletionShows(db: Tables, note: string)
    requires db.vectors.Keys == db.chunks.Keys
    ensures var gone := set id | id in db.chunks && db.chunks[id].note == Some(note);
            var next := DeleteNote(db, note);
            next != db <==> gone != {} || |next.events| < |db.events|
  {
    var gone := set id | id in db.chunks && db.chunks[id].note == Some(note);
    KeepingEvents(db.events, DeleteNote(db, note).events);
    RemovingKeys(db.chunks, gone);
    RemovingKeys(db.vectors, gone);
  }

  lemma KeepingEvents(events: map<nat, Message>, kept: map<nat, Message>)
    requires forall n :: n in kept ==> n in events && kept[n] == events[n]
    ensures kept != events <==> |kept| < |events|
  {
    if kept.Keys == events.Keys {
      assert kept == events;
    } else {
      assert kept.Keys <= events.Keys;
      var missing :| missing in events.Keys && missing !in kept.Keys;
      SmallerKeys(kept.Keys, events.Keys, missing);
      assert |kept.Keys| < |events.Keys|;
    }
  }

  lemma RemovingKeys<K, V>(m: map<K, V>, gone: set<K>)
    requires gone <= m.Keys
    ensures m - gone == m <==> gone == {}
  {
    if gone == {} {
      assert m - gone == m;
    } else {
      var k :| k in gone;
      assert k in m && k !in m - gone;
    }
  }

  lemma SmallerKeys<T>(a: set<T>, b: set<T>, x: T)
    requires a <= b && x in b && x !in a
    ensures |a| < |b|
  {
    var rest := b - a;
    assert x in rest && |rest| > 0;
    assert b == a + rest && a !! rest;
  }

  class LibsqlMemory {
    var events: map<nat, Message>
    var lastSequence: Option<nat>
    var summary: Option<Summary>
    var scratchpad: Option<seq<string>>
    var chunks: Index
    var vectors: Vectors

    function View(): Tables
      reads this
    {
      Tables(events, lastSequence, summary, scratchpad, chunks, vectors)
    }

    ghost predicate Valid()
      reads this
    {
      OneChunkPerKey(chunks) && vectors.Keys == chunks.Keys
    }

    constructor ()
      ensures Valid() && View() == EmptyTables
    {
      events, lastSequence, summary, scratchpad, chunks, vectors := map[], None, None, None, map[], map[];
    }

    // Any matching row will do: there is at most one.
    method FindExistingChunkId(k: Key) returns (r: Option<ChunkId>)
      requires Valid()
      ensures r == if Known(chunks, k) then Some(Find(chunks, k)) else None
    {
      if exists id :: id in chunks && KeyOf(chunks[id]) == k {
        var id :| id in chunks && KeyOf(chunks[id]) == k;
        assert IsChunkWith(chunks, k, id);
        return Some(id);
      }
      assert !Known(chunks, k);
      return None;
    }

    // On an error the tables are left part-way; the caller rolls back.
    method IndexPreparedDocument(d: Document) returns (ok: bool)
      requires Valid()
      modifies this`chunks, this`vectors
      ensures var r := IndexFrom(old(View()), d, 0);
              ok == r.Some? && (ok ==> Valid() && View() == r.value)
    {
      ghost var whole := IndexFrom(View(), d, 0);
      for index := 0 to |d.hashes|
        invariant Valid()
        invariant whole == IndexFrom(View(), d, index)
      {
        ok := IndexPreparedChunk(d, index);
        if !ok {
          return;
        }
      }
      return true;
    }

    method IndexPreparedChunk(d: Document, index: nat) returns (ok: bool)
      requires Valid() && index < |d.hashes|
      modifies this`chunks, this`vectors
      ensures var r := IndexOne(old(View()), d, index);
              ok == r.Some? && (ok ==> Valid() && View() == r.value)
    {
      IndexOneKeepsTables(View(), d, index);
      var k := KeyAt(d, index);
      var existing := FindExistingChunkId(k);
      if existing.Some? {
        chunks := chunks[existing.value := Touched(chunks[existing.value], d.seen)];
        return true;
      }
      var id := RowIdAt(d, index);
      if id in chunks {
        return false;
      }
      chunks := chunks[id := NewRow(k, d.seen)];
      vectors := vectors[id := k.hash];
      return true;
    }

    method StoreMessage(sequence: nat, m: Message) returns (r: Result<nat>)
      requires Valid()
      modifies this`events, this`lastSequence, this`chunks, this`vectors
      ensures Valid()
      ensures match Store(old(View()), sequence, m)
              case None => r == Err && View() == old(View())
              case Some(db) => r == Ok(sequence) && View() == db
    {
      if sequence > I64_MAX {
        return Err;
      }
      var begin := View();
      if !Above(events, sequence) {
        return Err;
      }
      events := events[sequence := m];
      lastSequence := Some(sequence);
      var ok := IndexPreparedDocument(MessageDocument(sequence, m));
      if !ok {
        events, lastSequence, chunks, vectors := begin.events, begin.lastSequence, begin.chunks, begin.vectors;
        return Err;
      }
      return Ok(sequence);
    }

    method StoreNoteAt(sequence: nat, n: Note) returns (r: Result<()>)
      requires Valid()
      modifies this`events, this`chunks, this`vectors
      ensures Valid()
      ensures match StoreNote(old(View()), sequence, n)
              case None => r == Err && View() == old(View())
              case Some(db) => r == Ok(()) && View() == db
    {
      if Blank(n.id) || Blank(n.text) || sequence > I64_MAX {
        return Err;
      }
      var begin := View();
      if sequence in events {
        return Err;
      }
      events := events[sequence := NoteMessage(n)];
      var ok := IndexPreparedDocument(NoteDocument(sequence, n));
      if !ok {
        events, chunks, vectors := begin.events, begin.chunks, begin.vectors;
        return Err;
      }
      return Ok(());
    }

    method DeleteNoteById(note: string) returns (found: bool)
      requires Valid()
      modifies this`events, this`chunks, this`vectors
      ensures Valid()
      ensures View() == DeleteNote(old(View()), note)
      ensures found <==> View() != old(View())
    {
      var gone := set id | id in chunks && chunks[id].note == Some(note);
      var before := events;
      chunks := chunks - gone;
      vectors := vectors - gone;
      events := map n | n in before && before[n].toolCallId != Some(note) :: before[n];
      found := gone != {} || |events| < |before|;
      DeletionShows(old(View()), note);
    }

    method CollectRecords(rows: seq<Row<Message>>) returns (records: seq<Row<Message>>)
      ensures records == rows
    {
      records := [];
      for i := 0 to |rows|
        invariant records == rows[..i]
      {
        records := records + [rows[i]];
      }
    }

    method Recall(limit: Option<nat>) returns (r: Recalled)
      ensures r == RecallOf(events, limit)
    {
      if limit.Some? && limit.value > I64_MAX {
        return QueryError;
      }
      var rows := if limit.Some? then Newest(events, limit.value) else Ascending(events);
      var records := CollectRecords(rows);
      if limit.Some? {
        NewestReversed(events, limit.value);
        records := Reversed(records);
      }
      if records == [] {
        return NotFound;
      }
      return Records(records);
    }

    method WriteSummaryState(w: SummaryWrite) returns (r: Result<(bool, nat)>)
      modifies this`summary
      ensures match WriteSummary(old(View()), w)
              case None => r == Err && View() == old(View())
              case Some((db, applied)) => View() == db && r == Ok((applied, EpochOf(summary)))
    {
      if w.next <= w.expected {
        return Err;
      }
      var current := if summary.Some? then summary.value.epoch else 0;
      if current != w.expected {
        return Ok((false, current));
      }
      if summary.Some? && w.upper < summary.value.upper {
        return Err;
      }
      summary := Some(Summary(w.next, w.upper, w.text));
      return Ok((true, w.next));
    }

    method WriteScratchpad(items: seq<string>)
      modifies this`scratchpad
      ensures scratchpad == Some(items)
    {
      scratchpad := Some(items);
    }

    method ClearScratchpad() returns (cleared: bool)
      modifies this`scratchpad
      ensures scratchpad == None && cleared == old(scratchpad).Some?
    {
      cleared := scratchpad.Some?;
      scratchpad := None;
    }
  }
}
