/**
 The chunk index against a naive replay of the run that built it.
 */
module ChunkIndex {
  import opened Common
  import opened Memory
  import opened MemoryRuns

  // -------------------------------------------------------------------------
  // The replay: which chunks each committed transaction showed the index
  // -------------------------------------------------------------------------

  datatype Mark = Seen(key: Key, sighting: Sighting) | Dropped(note: string)

  function DocumentMarks(d: Document): seq<Mark> {
    seq(|d.hashes|, i requires 0 <= i < |d.hashes| => Seen(KeyAt(d, i), d.seen))
  }

  function Marks(op: Op): seq<Mark> {
    match op
    case StoreOp(sequence, message) =>
      DocumentMarks(Document(message.chunks, None, Sighting(sequence, Metadata(message.role, message.toolCallId, ""))))
    case StoreNoteOp(sequence, n) =>
      DocumentMarks(Document(n.chunks, Some(n.id), Sighting(sequence, Metadata("user", Some(n.id), n.extra))))
    case DeleteNoteOp(note) => [Dropped(note)]
    case _ => []
  }

  ghost function History(ops: seq<Op>): seq<Mark> {
    if ops == [] then []
    else
      var before, op := ops[..|ops| - 1], ops[|ops| - 1];
      History(before) + (if Effect(Run(before), op).Some? then Marks(op) else [])
  }

  // Where a key was seen since its note was last dropped, in order.
  function Sightings(h: seq<Mark>, k: Key): seq<Sighting> {
    if h == [] then []
    else Saw(Sightings(h[..|h| - 1], k), h[|h| - 1], k)
  }

  function Saw(o: seq<Sighting>, mark: Mark, k: Key): seq<Sighting> {
    match mark
    case Seen(key, sighting) => if key == k then o + [sighting] else o
    case Dropped(note) => if k.note == Some(note) then [] else o
  }

  predicate IsLatest(o: seq<Sighting>, n: nat) {
    && (exists i :: 0 <= i < |o| && o[i].sequence == n)
    && forall i :: 0 <= i < |o| ==> o[i].sequence <= n
  }

  // The row tells when its text was first and latest seen; a note's row has the newest metadata.
  predicate Tells(c: Chunk, o: seq<Sighting>) {
    && o != []
    && c.first == o[0].sequence
    && IsLatest(o, c.last)
    && c.metadata == (if c.note.Some? then o[|o| - 1] else o[0]).metadata
  }

  ghost predicate RowsTell(chunks: Index, h: seq<Mark>) {
    forall id :: id in chunks ==> Tells(chunks[id], Sightings(h, KeyOf(chunks[id])))
  }

  ghost predicate Covers(chunks: Index, h: seq<Mark>) {
    forall k :: Sightings(h, k) != [] ==> Known(chunks, k)
  }

  predicate VectorPerChunk(chunks: Index, vectors: Vectors) {
    vectors.Keys == chunks.Keys && forall id :: id in chunks ==> vectors[id] == chunks[id].hash
  }

  ghost predicate TablesAgree(chunks: Index, vectors: Vectors, h: seq<Mark>) {
    OneChunkPerKey(chunks) && VectorPerChunk(chunks, vectors) && RowsTell(chunks, h) && Covers(chunks, h)
  }

  ghost predicate Agrees(db: Tables, h: seq<Mark>) {
    TablesAgree(db.chunks, db.vectors, h)
  }

  // -------------------------------------------------------------------------
  // One mark at a time
  // -------------------------------------------------------------------------

  lemma SightingsOneMore(h: seq<Mark>, mark: Mark, k: Key)
    ensures Sightings(h + [mark], k) == Saw(Sightings(h, k), mark, k)
  {
    assert (h + [mark])[..|h|] == h;
  }

  lemma TouchedTells(c: Chunk, o: seq<Sighting>, s: Sighting)
    requires Tells(c, o)
    ensures Tells(Touched(c, s), o + [s])
  {
    var i :| 0 <= i < |o| && o[i].sequence == c.last;
    var next := o + [s];
    assert next[i] == o[i] && next[|o|] == s;
  }

  lemma NewTells(k: Key, s: Sighting)
    ensures Tells(NewRow(k, s), [s])
  {
    assert [s][0].sequence == s.sequence;
  }

  // Every key that had a row has one still, and so has the key just seen.
  lemma CoversOneMore(chunks: Index, next: Index, h: seq<Mark>, k: Key, s: Sighting, id: ChunkId)
    requires Covers(chunks, h) && IsChunkWith(next, k, id)
    requires forall a :: a in chunks ==> a in next && KeyOf(next[a]) == KeyOf(chunks[a])
    ensures Covers(next, h + [Seen(k, s)])
  {
    forall j | Sightings(h + [Seen(k, s)], j) != [] ensures Known(next, j) {
      SightingsOneMore(h, Seen(k, s), j);
      if j != k {
        var a :| IsChunkWith(chunks, j, a);
        assert IsChunkWith(next, j, a);
      }
    }
  }

  // A known key is seen again: its row is touched and no other.
  lemma TouchTells(chunks: Index, h: seq<Mark>, k: Key, s: Sighting, id: ChunkId)
    requires OneChunkPerKey(chunks) && RowsTell(chunks, h) && IsChunkWith(chunks, k, id)
    ensures RowsTell(chunks[id := Touched(chunks[id], s)], h + [Seen(k, s)])
  {
    var next := chunks[id := Touched(chunks[id], s)];
    forall a | a in next ensures Tells(next[a], Sightings(h + [Seen(k, s)], KeyOf(next[a]))) {
      SightingsOneMore(h, Seen(k, s), KeyOf(next[a]));
      if a == id {
        TouchedTells(chunks[id], Sightings(h, k), s);
      } else {
        assert KeyOf(chunks[a]) != k;
      }
    }
  }

  // An unknown key is seen: a row is added.
  lemma InsertTells(chunks: Index, h: seq<Mark>, k: Key, s: Sighting, id: ChunkId)
    requires RowsTell(chunks, h) && Covers(chunks, h) && !Known(chunks, k) && id !in chunks
    ensures RowsTell(chunks[id := NewRow(k, s)], h + [Seen(k, s)])
  {
    var next := chunks[id := NewRow(k, s)];
    forall a | a in next ensures Tells(next[a], Sightings(h + [Seen(k, s)], KeyOf(next[a]))) {
      SightingsOneMore(h, Seen(k, s), KeyOf(next[a]));
      if a == id {
        NewTells(k, s);
        assert Sightings(h, k) == [];
      } else {
        assert !IsChunkWith(chunks, k, a);
      }
    }
  }

  lemma TouchKeepsOnePerKey(chunks: Index, vectors: Vectors, id: ChunkId, c: Chunk)
    requires OneChunkPerKey(chunks) && VectorPerChunk(chunks, vectors) && id in chunks && KeyOf(chunks[id]) == KeyOf(c)
    ensures OneChunkPerKey(chunks[id := c]) && VectorPerChunk(chunks[id := c], vectors)
  {
  }

  lemma InsertKeepsOnePerKey(chunks: Index, vectors: Vectors, k: Key, id: ChunkId, c: Chunk)
    requires OneChunkPerKey(chunks) && VectorPerChunk(chunks, vectors)
    requires !Known(chunks, k) && id !in chunks && KeyOf(c) == k
    ensures OneChunkPerKey(chunks[id := c]) && VectorPerChunk(chunks[id := c], vectors[id := k.hash])
  {
    forall a | a in chunks ensures KeyOf(chunks[a]) != k {
      assert !IsChunkWith(chunks, k, a);
    }
  }

  lemma TouchAgrees(chunks: Index, vectors: Vectors, h: seq<Mark>, k: Key, s: Sighting, id: ChunkId)
    requires TablesAgree(chunks, vectors, h) && IsChunkWith(chunks, k, id)
    ensures TablesAgree(chunks[id := Touched(chunks[id], s)], vectors, h + [Seen(k, s)])
  {
    TouchTells(chunks, h, k, s, id);
    CoversOneMore(chunks, chunks[id := Touched(chunks[id], s)], h, k, s, id);
    TouchKeepsOnePerKey(chunks, vectors, id, Touched(chunks[id], s));
  }

  lemma InsertAgrees(chunks: Index, vectors: Vectors, h: seq<Mark>, k: Key, s: Sighting, id: ChunkId)
    requires TablesAgree(chunks, vectors, h) && !Known(chunks, k) && id !in chunks
    ensures TablesAgree(chunks[id := NewRow(k, s)], vectors[id := k.hash], h + [Seen(k, s)])
  {
    InsertTells(chunks, h, k, s, id);
    CoversOneMore(chunks, chunks[id := NewRow(k, s)], h, k, s, id);
    InsertKeepsOnePerKey(chunks, vectors, k, id, NewRow(k, s));
  }

  lemma IndexOneAgrees(db: Tables, h: seq<Mark>, d: Document, index: nat)
    requires Agrees(db, h) && index < |d.hashes|
    ensures var r := IndexOne(db, d, index);
            r.Some? ==> Agrees(r.value, h + [Seen(KeyAt(d, index), d.seen)])
  {
    var k, s := KeyAt(d, index), d.seen;
    if Known(db.chunks, k) {
      TouchAgrees(db.chunks, db.vectors, h, k, s, Find(db.chunks, k));
    } else if RowIdAt(d, index) !in db.chunks {
      InsertAgrees(db.chunks, db.vectors, h, k, s, RowIdAt(d, index));
    }
  }

  // The history with the first `i` chunks of a document.
  function Upto(h: seq<Mark>, d: Document, i: nat): seq<Mark>
    requires i <= |d.hashes|
  {
    h + DocumentMarks(d)[..i]
  }

  lemma UptoNext(h: seq<Mark>, d: Document, i: nat)
    requires i < |d.hashes|
    ensures Upto(h, d, i + 1) == Upto(h, d, i) + [Seen(KeyAt(d, i), d.seen)]
  {
  }

  lemma UptoEnds(h: seq<Mark>, d: Document)
    ensures Upto(h, d, 0) == h && Upto(h, d, |d.hashes|) == h + DocumentMarks(d)
  {
    assert DocumentMarks(d)[..|d.hashes|] == DocumentMarks(d);
  }

  ghost predicate AgreesUpto(db: Tables, h: seq<Mark>, d: Document, i: nat) {
    i <= |d.hashes| && Agrees(db, Upto(h, d, i))
  }

  lemma NextChunkAgrees(db: Tables, h: seq<Mark>, d: Document, i: nat)
    requires i < |d.hashes| && AgreesUpto(db, h, d, i) && IndexOne(db, d, i).Some?
    ensures AgreesUpto(IndexOne(db, d, i).value, h, d, i + 1)
  {
    IndexOneAgrees(db, Upto(h, d, i), d, i);
    UptoNext(h, d, i);
  }

  lemma {:induction false} IndexingAgreesUpto(db: Tables, h: seq<Mark>, d: Document, i: nat)
    requires AgreesUpto(db, h, d, i)
    ensures var r := IndexFrom(db, d, i);
            r.Some? ==> AgreesUpto(r.value, h, d, |d.hashes|)
    decreases |d.hashes| - i
  {
    if i < |d.hashes| && IndexOne(db, d, i).Some? {
      NextChunkAgrees(db, h, d, i);
      IndexingAgreesUpto(IndexOne(db, d, i).value, h, d, i + 1);
    }
  }

  lemma IndexingAgrees(db: Tables, h: seq<Mark>, d: Document)
    requires Agrees(db, h)
    ensures var r := IndexFrom(db, d, 0);
            r.Some? ==> Agrees(r.value, h + DocumentMarks(d))
  {
    UptoEnds(h, d);
    IndexingAgreesUpto(db, h, d, 0);
  }

  // Deleting a note removes exactly that note's keys.
  lemma DeletionRemovesTheNotesKeys(db: Tables, note: string, k: Key)
    ensures Known(DeleteNote(db, note).chunks, k) <==> Known(db.chunks, k) && k.note != Some(note)
  {
    var next := DeleteNote(db, note).chunks;
    if Known(db.chunks, k) && k.note != Some(note) {
      var id :| IsChunkWith(db.chunks, k, id);
      assert IsChunkWith(next, k, id);
    }
    if Known(next, k) {
      var id :| IsChunkWith(next, k, id);
      assert IsChunkWith(db.chunks, k, id);
    }
  }

  lemma DeletionAgrees(db: Tables, h: seq<Mark>, note: string)
    requires Agrees(db, h)
    ensures Agrees(DeleteNote(db, note), h + [Dropped(note)])
  {
    var next := DeleteNote(db, note);
    var mark := Dropped(note);
    forall a | a in next.chunks ensures Tells(next.chunks[a], Sightings(h + [mark], KeyOf(next.chunks[a]))) {
      SightingsOneMore(h, mark, KeyOf(next.chunks[a]));
    }
    forall j | Sightings(h + [mark], j) != [] ensures Known(next.chunks, j) {
      SightingsOneMore(h, mark, j);
      DeletionRemovesTheNotesKeys(db, note, j);
    }
  }

  // -------------------------------------------------------------------------
  // Whole runs
  // -------------------------------------------------------------------------

  lemma OperationAgrees(db: Tables, h: seq<Mark>, op: Op)
    requires Agrees(db, h)
    ensures Agrees(Apply(db, op), h + if Effect(db, op).Some? then Marks(op) else [])
  {
    assert h + [] == h;
    match op
    case StoreOp(sequence, message) =>
      IndexingAgrees(WithMessage(db, sequence, message), h, MessageDocument(sequence, message));
    case StoreNoteOp(sequence, n) =>
      IndexingAgrees(WithNote(db, sequence, n), h, NoteDocument(sequence, n));
    case DeleteNoteOp(note) => DeletionAgrees(db, h, note);
    case _ =>
  }

  /**
   After every run of transactions the index is what the replay says: one row, with one vector,
   for each text and note seen since the note was last deleted, and for nothing else; the row
   keeps the first and the largest sequence that showed it.
   */
  lemma {:induction false} IndexIsTheReplay(ops: seq<Op>)
    ensures Agrees(Run(ops), History(ops))
    ensures forall k :: Known(Run(ops).chunks, k) <==> Sightings(History(ops), k) != []
  {
    if ops != [] {
      var before, op := ops[..|ops| - 1], ops[|ops| - 1];
      IndexIsTheReplay(before);
      OperationAgrees(Run(before), History(before), op);
    }
    forall k | Known(Run(ops).chunks, k) ensures Sightings(History(ops), k) != [] {
      var id :| IsChunkWith(Run(ops).chunks, k, id);
    }
  }
}
