/**
 When indexing fails.  A chunk's row id is made of the sequence that first showed it, so a row
 that outlives its event can stand in the way once the sequence is used again.
 */
module IndexClashes {
  import opened Common
  import opened Memory
  import opened MemoryRuns

  // -------------------------------------------------------------------------
  // One document
  // -------------------------------------------------------------------------

  // Chunk `i` of a document indexed from `start` on is known by then, or its row id is free.
  ghost predicate Fits(chunks: Index, d: Document, start: nat, i: nat)
    requires start <= i < |d.hashes|
  {
    || Known(chunks, KeyAt(d, i))
    || d.hashes[i] in d.hashes[start..i]
    || RowIdAt(d, i) !in chunks
  }

  ghost predicate AllFit(chunks: Index, d: Document, start: nat) {
    forall i: nat :: start <= i < |d.hashes| ==> Fits(chunks, d, start, i)
  }

  lemma KnownAfterOne(db: Tables, d: Document, index: nat, j: Key)
    requires index < |d.hashes| && IndexOne(db, d, index).Some?
    ensures Known(IndexOne(db, d, index).value.chunks, j) <==> Known(db.chunks, j) || j == KeyAt(d, index)
  {
    var k := KeyAt(d, index);
    var next := IndexOne(db, d, index).value.chunks;
    var id := if Known(db.chunks, k) then Find(db.chunks, k) else RowIdAt(d, index);
    assert IsChunkWith(next, k, id);
    if Known(db.chunks, j) && j != k {
      var a :| IsChunkWith(db.chunks, j, a);
      assert IsChunkWith(next, j, a);
    }
    if Known(next, j) && j != k {
      var a :| IsChunkWith(next, j, a);
      assert IsChunkWith(db.chunks, j, a);
    }
  }

  lemma FitsAfterOne(db: Tables, d: Document, index: nat, i: nat)
    requires index < i < |d.hashes|
    requires IndexOne(db, d, index).Some?
    ensures var next := IndexOne(db, d, index).value;
            Fits(next.chunks, d, index + 1, i) <==> Fits(db.chunks, d, index, i)
  {
    var k := KeyAt(d, index);
    KnownAfterOne(db, d, index, KeyAt(d, i));
    assert d.hashes[index..i] == [d.hashes[index]] + d.hashes[index + 1..i];
    assert RowIdAt(d, i) != RowIdAt(d, index);
  }

  lemma AllFitAfterOne(db: Tables, d: Document, index: nat)
    requires index < |d.hashes| && Fits(db.chunks, d, index, index)
    requires IndexOne(db, d, index).Some?
    ensures var next := IndexOne(db, d, index).value;
            AllFit(next.chunks, d, index + 1) <==> AllFit(db.chunks, d, index)
  {
    var next := IndexOne(db, d, index).value.chunks;
    var later := index + 1;
    if AllFit(next, d, later) {
      forall i: nat | index <= i < |d.hashes| ensures Fits(db.chunks, d, index, i) {
        if index < i {
          FitsAfterOne(db, d, index, i);
          assert Fits(next, d, later, i);
        }
      }
    }
    if AllFit(db.chunks, d, index) {
      forall i: nat | later <= i < |d.hashes| ensures Fits(next, d, later, i) {
        FitsAfterOne(db, d, index, i);
      }
    }
  }

  /**
   Indexing fails exactly when some chunk is new, to the index and to the document, and its row id
   is taken already.
   */
  lemma {:induction false} IndexingFailsExactlyOnClash(db: Tables, d: Document, index: nat)
    requires index <= |d.hashes|
    ensures IndexFrom(db, d, index).Some? <==>
            AllFit(db.chunks, d, index)
    decreases |d.hashes| - index
  {
    if index < |d.hashes| {
      var k := KeyAt(d, index);
      assert d.hashes[index..index] == [];
      var one := IndexOne(db, d, index);
      assert one.Some? <==> Fits(db.chunks, d, index, index);
      if one.Some? {
        IndexingFailsExactlyOnClash(one.value, d, index + 1);
        AllFitAfterOne(db, d, index);
      }
    }
  }

  // What a caller can check beforehand: a store or a note goes through exactly under its guards and without a clash.
  lemma StoredExactly(db: Tables, sequence: nat, m: Message, n: Note)
    ensures Store(db, sequence, m).Some? <==>
            && sequence <= I64_MAX && Above(db.events, sequence)
            && AllFit(db.chunks, MessageDocument(sequence, m), 0)
    ensures StoreNote(db, sequence, n).Some? <==>
            && !Blank(n.id) && !Blank(n.text) && sequence <= I64_MAX && sequence !in db.events
            && AllFit(db.chunks, NoteDocument(sequence, n), 0)
  {
    IndexingFailsExactlyOnClash(WithMessage(db, sequence, m), MessageDocument(sequence, m), 0);
    IndexingFailsExactlyOnClash(WithNote(db, sequence, n), NoteDocument(sequence, n), 0);
  }

  predicate Unused(chunks: Index, sequence: nat) {
    forall id :: id in chunks ==> id.sequence != sequence
  }

  lemma UnusedSequenceFits(db: Tables, d: Document)
    requires Unused(db.chunks, d.seen.sequence)
    ensures IndexFrom(db, d, 0).Some?
  {
    IndexingFailsExactlyOnClash(db, d, 0);
  }

  // -------------------------------------------------------------------------
  // Whole runs
  // -------------------------------------------------------------------------

  // The names of deleted notes are reserved: no stored message has one as its tool call id.
  predicate Reserved(ops: seq<Op>, names: set<string>) {
    forall i :: 0 <= i < |ops| ==> KeepsReserved(ops[i], names)
  }

  predicate KeepsReserved(op: Op, names: set<string>) {
    match op
    case StoreOp(_, message) => !Named(message, names)
    case DeleteNoteOp(note) => note in names
    case _ => true
  }

  predicate Named(m: Message, names: set<string>) {
    m.toolCallId.Some? && m.toolCallId.value in names
  }

  // The event that showed a chunk first, and so lent its sequence to the row id, is still there.
  predicate HasEvent(events: map<nat, Message>, names: set<string>, id: ChunkId, note: Option<string>) {
    && id.sequence in events
    && if note.Some? then events[id.sequence].toolCallId == note else !Named(events[id.sequence], names)
  }

  predicate ChunksHaveEvents(db: Tables, names: set<string>) {
    forall id :: id in db.chunks ==> HasEvent(db.events, names, id, db.chunks[id].note)
  }

  lemma IndexingKeepsEvents(db: Tables, names: set<string>, d: Document)
    requires ChunksHaveEvents(db, names)
    requires HasEvent(db.events, names, ChunkId(d.seen.sequence, 0, ""), d.note)
    ensures var r := IndexFrom(db, d, 0);
            r.Some? ==> ChunksHaveEvents(r.value, names)
  {
    EachChunkKeeps((t: Tables, i: nat) => t.events == db.events && ChunksHaveEvents(t, names), db, d, 0);
  }

  lemma OperationKeepsEvents(db: Tables, names: set<string>, op: Op)
    requires ChunksHaveEvents(db, names) && KeepsReserved(op, names)
    ensures ChunksHaveEvents(Apply(db, op), names)
  {
    match op
    case StoreOp(sequence, message) =>
      if sequence !in db.events {
        IndexingKeepsEvents(WithMessage(db, sequence, message), names, MessageDocument(sequence, message));
      }
    case StoreNoteOp(sequence, n) =>
      if sequence !in db.events {
        IndexingKeepsEvents(WithNote(db, sequence, n), names, NoteDocument(sequence, n));
      }
    case DeleteNoteOp(note) =>
      assert ChunksHaveEvents(DeleteNote(db, note), names);
    case _ =>
  }

  lemma {:induction false} ReservedRunsKeepEvents(ops: seq<Op>, names: set<string>)
    requires Reserved(ops, names)
    ensures ChunksHaveEvents(Run(ops), names)
  {
    if ops != [] {
      ReservedRunsKeepEvents(ops[..|ops| - 1], names);
      OperationKeepsEvents(Run(ops[..|ops| - 1]), names, ops[|ops| - 1]);
    }
  }

  /**
   While deleted notes and tool calls do not share names, a message is rejected for its sequence
   alone, and a note for a blank field or a sequence in use: the index never stands in the way.
   */
  lemma ReservedRunsNeverClash(ops: seq<Op>, names: set<string>, sequence: nat, m: Message, n: Note)
    requires Reserved(ops, names)
    ensures Store(Run(ops), sequence, m).Some? <==> sequence <= I64_MAX && Above(Run(ops).events, sequence)
    ensures StoreNote(Run(ops), sequence, n).Some? <==>
            !Blank(n.id) && !Blank(n.text) && sequence <= I64_MAX && sequence !in Run(ops).events
  {
    var db := Run(ops);
    ReservedRunsKeepEvents(ops, names);
    if sequence !in db.events {
      assert Unused(db.chunks, sequence);
      UnusedSequenceFits(WithMessage(db, sequence, m), MessageDocument(sequence, m));
      UnusedSequenceFits(WithNote(db, sequence, n), NoteDocument(sequence, n));
    }
  }

  // -------------------------------------------------------------------------
  // Messages, whatever the names
  // -------------------------------------------------------------------------

  // Row ids hold 16 digits of the hash, which are taken to tell the hashes in use apart.
  predicate ToldApart(hs: set<Hash>) {
    forall a, b :: a in hs && b in hs && a[..16] == b[..16] ==> a == b
  }

  predicate Within(hashes: seq<Hash>, hs: set<Hash>) {
    forall i :: 0 <= i < |hashes| ==> hashes[i] in hs
  }

  predicate Uses(op: Op, hs: set<Hash>) {
    match op
    case StoreOp(_, message) => Within(message.chunks, hs)
    case StoreNoteOp(_, n) => Within(n.chunks, hs)
    case _ => true
  }

  predicate AllUse(ops: seq<Op>, hs: set<Hash>) {
    forall i :: 0 <= i < |ops| ==> Uses(ops[i], hs)
  }

  // A row id shows its hash, and a note's row has the note's event behind it.
  predicate RowSettled(events: map<nat, Message>, hs: set<Hash>, id: ChunkId, hash: Hash, note: Option<string>) {
    && hash in hs && id.prefix == hash[..16]
    && (note.Some? ==> id.sequence in events && events[id.sequence].toolCallId == note)
  }

  predicate Settled(db: Tables, hs: set<Hash>) {
    forall id :: id in db.chunks ==> RowSettled(db.events, hs, id, db.chunks[id].hash, db.chunks[id].note)
  }

  lemma IndexOneSettles(db: Tables, hs: set<Hash>, d: Document, index: nat)
    requires index < |d.hashes| && d.hashes[index] in hs && Settled(db, hs)
    requires d.note.Some? ==> d.seen.sequence in db.events && db.events[d.seen.sequence].toolCallId == d.note
    ensures var r := IndexOne(db, d, index);
            r.Some? ==> Settled(r.value, hs) && r.value.events == db.events
  {
  }

  lemma IndexingSettles(db: Tables, hs: set<Hash>, d: Document)
    requires Within(d.hashes, hs) && Settled(db, hs)
    requires d.note.Some? ==> d.seen.sequence in db.events && db.events[d.seen.sequence].toolCallId == d.note
    ensures var r := IndexFrom(db, d, 0);
            r.Some? ==> Settled(r.value, hs)
  {
    var p := (t: Tables, i: nat) => t.events == db.events && Settled(t, hs);
    forall t: Tables, i: nat | i < |d.hashes| && p(t, i) && IndexOne(t, d, i).Some?
      ensures p(IndexOne(t, d, i).value, i + 1)
    {
      IndexOneSettles(t, hs, d, i);
    }
    EachChunkKeeps(p, db, d, 0);
  }

  lemma OperationSettles(db: Tables, hs: set<Hash>, op: Op)
    requires Settled(db, hs) && Uses(op, hs)
    ensures Settled(Apply(db, op), hs)
  {
    match op
    case StoreOp(sequence, message) =>
      if sequence !in db.events {
        IndexingSettles(WithMessage(db, sequence, message), hs, MessageDocument(sequence, message));
      }
    case StoreNoteOp(sequence, n) =>
      if sequence !in db.events {
        IndexingSettles(WithNote(db, sequence, n), hs, NoteDocument(sequence, n));
      }
    case DeleteNoteOp(note) =>
      assert Settled(DeleteNote(db, note), hs);
    case _ =>
  }

  lemma {:induction false} RunsAreSettled(ops: seq<Op>, hs: set<Hash>)
    requires AllUse(ops, hs)
    ensures Settled(Run(ops), hs)
  {
    if ops != [] {
      RunsAreSettled(ops[..|ops| - 1], hs);
      OperationSettles(Run(ops[..|ops| - 1]), hs, ops[|ops| - 1]);
    }
  }

  // A row in the way of a message is the message's own text, left from an earlier event.
  lemma SettledMessageFits(db: Tables, hs: set<Hash>, d: Document)
    requires ToldApart(hs) && Settled(db, hs) && Within(d.hashes, hs) && d.seen.sequence !in db.events && d.note == None
    ensures AllFit(db.chunks, d, 0)
  {
    forall i: nat | i < |d.hashes| ensures Fits(db.chunks, d, 0, i) {
      var id := RowIdAt(d, i);
      if id in db.chunks {
        assert db.chunks[id].hash == d.hashes[i];
        assert IsChunkWith(db.chunks, KeyAt(d, i), id);
      }
    }
  }

  /**
   A message is rejected for its sequence alone: the index never stands in the way of one in any
   run, shared names or not.
   */
  lemma MessagesNeverClash(db: Tables, hs: set<Hash>, sequence: nat, m: Message)
    requires ToldApart(hs) && Settled(db, hs) && Within(m.chunks, hs)
    ensures Store(db, sequence, m).Some? <==> sequence <= I64_MAX && Above(db.events, sequence)
  {
    if Above(db.events, sequence) {
      SettledMessageFits(db, hs, MessageDocument(sequence, m));
      IndexingFailsExactlyOnClash(WithMessage(db, sequence, m), MessageDocument(sequence, m), 0);
    }
  }

  /**
   For a note the index can, when the names are shared: deleting a note also deletes the tool result
   that answers a call of that name but leaves its chunk, and a note with the same text then finds
   the row id taken.
   */
  lemma ReusedSequenceClashes(tool: Message, h: Hash, note: Note)
    requires tool.toolCallId.Some? && tool.chunks == [h]
    requires note.chunks == [h] && !Blank(note.id) && !Blank(note.text)
    ensures var db := Run([StoreOp(1, tool), DeleteNoteOp(tool.toolCallId.value)]);
            && db.events == map[]
            && (forall m: Message :: m.chunks == [] ==> Store(db, 1, m).Some?)
            && StoreNote(db, 1, note).None?
  {
    var name := tool.toolCallId.value;
    var one := [StoreOp(1, tool)];
    var two := [StoreOp(1, tool), DeleteNoteOp(name)];
    assert two[..1] == one && one[..0] == [];
    var d := MessageDocument(1, tool);
    var db1 := WithMessage(EmptyTables, 1, tool);
    assert !Known(db1.chunks, KeyAt(d, 0));
    var db2 := db1.(chunks := map[RowIdAt(d, 0) := NewRow(KeyAt(d, 0), d.seen)], vectors := map[RowIdAt(d, 0) := h]);
    assert IndexOne(db1, d, 0) == Some(db2);
    assert IndexFrom(db2, d, 1) == Some(db2);
    assert Run(one) == db2;
    var db := DeleteNote(db2, name);
    assert Run(two) == db && db.chunks == db2.chunks;
    assert !Known(db.chunks, KeyAt(NoteDocument(1, note), 0));
  }
}
