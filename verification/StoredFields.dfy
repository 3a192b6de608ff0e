/** What the tables hold of a message or a note, in its own fields. */
module StoredFields {
  import opened Common
  import opened TextChunks
  import opened Memory
  import opened MemoryRuns

  // -------------------------------------------------------------------------
  // The rows of a document
  // -------------------------------------------------------------------------

  // A row for the key, seen at `sequence` or later, with its vector; its metadata if it was written there.
  predicate RowShows(t: Tables, id: ChunkId, k: Key, sequence: nat, metadata: Metadata, written: bool) {
    && id in t.chunks && KeyOf(t.chunks[id]) == k && t.chunks[id].last >= sequence
    && id in t.vectors && t.vectors[id] == k.hash
    && (written ==> t.chunks[id].metadata == metadata)
  }

  ghost predicate Shown(t: Tables, k: Key, sequence: nat, metadata: Metadata, written: bool) {
    exists id :: RowShows(t, id, k, sequence, metadata, written)
  }

  // Vectors carry the hashes of their rows.
  predicate VectorsMatch(t: Tables) {
    forall id :: id in t.chunks ==> id in t.vectors && t.vectors[id] == t.chunks[id].hash
  }

  // The metadata is written for every chunk of a note, and for a chunk of a message that was not known.
  ghost predicate Written(db: Tables, k: Key) {
    k.note.Some? || !Known(db.chunks, k)
  }

  ghost predicate FreshRows(db: Tables, t: Tables, seen: Sighting) {
    forall id :: id in t.chunks && !Known(db.chunks, KeyOf(t.chunks[id])) ==>
      t.chunks[id].metadata == seen.metadata && t.chunks[id].first == seen.sequence
  }

  // The first `i` chunks are shown.
  ghost predicate ShownUpto(db: Tables, t: Tables, d: Document, i: nat) {
    && i <= |d.hashes| && VectorsMatch(t) && FreshRows(db, t, d.seen) && t.events == db.events
    && forall j :: 0 <= j < i ==>
         Shown(t, KeyAt(d, j), d.seen.sequence, d.seen.metadata, Written(db, KeyAt(d, j)))
  }

  // The row that the step inserts or touches.
  lemma StepShows(db: Tables, t: Tables, d: Document, i: nat)
    requires i < |d.hashes| && VectorsMatch(t) && FreshRows(db, t, d.seen) && IndexOne(t, d, i).Some?
    ensures
      var next := IndexOne(t, d, i).value;
      Shown(next, KeyAt(d, i), d.seen.sequence, d.seen.metadata, Written(db, KeyAt(d, i)))
  {
    var k := KeyAt(d, i);
    var id := if Known(t.chunks, k) then Find(t.chunks, k) else RowIdAt(d, i);
    assert RowShows(IndexOne(t, d, i).value, id, k, d.seen.sequence, d.seen.metadata, Written(db, k));
  }

  // Rows shown before are shown after the step.
  lemma StepKeepsShown(t: Tables, d: Document, i: nat, k: Key, written: bool)
    requires i < |d.hashes| && IndexOne(t, d, i).Some? && k.note == d.note
    requires Shown(t, k, d.seen.sequence, d.seen.metadata, written)
    ensures Shown(IndexOne(t, d, i).value, k, d.seen.sequence, d.seen.metadata, written)
  {
    var id :| RowShows(t, id, k, d.seen.sequence, d.seen.metadata, written);
    assert RowShows(IndexOne(t, d, i).value, id, k, d.seen.sequence, d.seen.metadata, written);
  }

  lemma StepKeepsTables(db: Tables, t: Tables, d: Document, i: nat)
    requires i < |d.hashes| && IndexOne(t, d, i).Some? && VectorsMatch(t) && FreshRows(db, t, d.seen)
    ensures
      var next := IndexOne(t, d, i).value;
      VectorsMatch(next) && FreshRows(db, next, d.seen) && next.events == t.events
  {
    var k := KeyAt(d, i);
    if Known(t.chunks, k) {
      var id := Find(t.chunks, k);
      assert KeyOf(Touched(t.chunks[id], d.seen)) == k;
    }
  }

  lemma StepShowsMore(db: Tables, t: Tables, d: Document, i: nat)
    requires i < |d.hashes| && ShownUpto(db, t, d, i) && IndexOne(t, d, i).Some?
    ensures ShownUpto(db, IndexOne(t, d, i).value, d, i + 1)
  {
    StepKeepsTables(db, t, d, i);
    StepShows(db, t, d, i);
    forall j | 0 <= j < i
      ensures Shown(IndexOne(t, d, i).value, KeyAt(d, j), d.seen.sequence, d.seen.metadata, Written(db, KeyAt(d, j)))
    {
      StepKeepsShown(t, d, i, KeyAt(d, j), Written(db, KeyAt(d, j)));
    }
  }

  lemma {:induction false} DocumentIsShown(db: Tables, t: Tables, d: Document, i: nat)
    requires ShownUpto(db, t, d, i)
    ensures IndexFrom(t, d, i).Some? ==> ShownUpto(db, IndexFrom(t, d, i).value, d, |d.hashes|)
    decreases |d.hashes| - i
  {
    if i < |d.hashes| && IndexOne(t, d, i).Some? {
      StepShowsMore(db, t, d, i);
      DocumentIsShown(db, IndexOne(t, d, i).value, d, i + 1);
    }
  }

  lemma WholeDocumentIsShown(db: Tables, d: Document, next: Tables)
    requires VectorsMatch(db) && IndexFrom(db, d, 0) == Some(next)
    ensures ShownUpto(db, next, d, |d.hashes|) && SameOutsideIndex(db, next)
  {
    forall id | id in db.chunks ensures Known(db.chunks, KeyOf(db.chunks[id])) {
      assert IsChunkWith(db.chunks, KeyOf(db.chunks[id]), id);
    }
    DocumentIsShown(db, db, d, 0);
    IndexingTouchesTheIndexOnly(db, d);
  }

  // -------------------------------------------------------------------------
  // Messages and notes
  // -------------------------------------------------------------------------

  /**
   A stored message: its event is the message under its sequence, every other event is as it was, and
   each of its chunks has a row, which tells the message's role and tool call if it is a new one.
   */
  lemma StoredMessage(db: Tables, sequence: nat, m: Message, next: Tables, i: nat)
    requires VectorsMatch(db) && Store(db, sequence, m) == Some(next)
    ensures next.events.Keys == db.events.Keys + {sequence} && next.lastSequence == Some(sequence)
    ensures next.summary == db.summary && next.scratchpad == db.scratchpad
    ensures forall n :: n in db.events ==> n < sequence && next.events[n] == db.events[n]
    ensures next.events[sequence] == m
    ensures i < |m.chunks| ==>
              Shown(next, Key(m.chunks[i], None), sequence, Metadata(m.role, m.toolCallId, ""),
                    !Known(db.chunks, Key(m.chunks[i], None)))
  {
    var d := MessageDocument(sequence, m);
    WholeDocumentIsShown(WithMessage(db, sequence, m), d, next);
    if i < |m.chunks| {
      assert KeyAt(d, i) == Key(m.chunks[i], None);
    }
  }

  /**
   A stored note: its event is a user's message with the note's text and, in place of a tool call, the
   note's id; every other event is as it was; each of its chunks has a row under the note, which tells
   that and the note's extras.
   */
  lemma StoredNote(db: Tables, sequence: nat, n: Note, next: Tables, i: nat)
    requires VectorsMatch(db) && StoreNote(db, sequence, n) == Some(next)
    ensures sequence !in db.events && next.events.Keys == db.events.Keys + {sequence}
    ensures forall k :: k in db.events ==> next.events[k] == db.events[k]
    ensures next.lastSequence == db.lastSequence && next.summary == db.summary && next.scratchpad == db.scratchpad
    ensures
      var e := next.events[sequence];
      e.role == "user" && e.text == n.text && e.toolCallId == Some(n.id) && e.attachments == [] && e.chunks == n.chunks
    ensures i < |n.chunks| ==>
              Shown(next, Key(n.chunks[i], Some(n.id)), sequence, Metadata("user", Some(n.id), n.extra), true)
  {
    var d := NoteDocument(sequence, n);
    WholeDocumentIsShown(WithNote(db, sequence, n), d, next);
    if i < |n.chunks| {
      assert KeyAt(d, i) == Key(n.chunks[i], Some(n.id));
    }
  }

  // Every run keeps the vectors with their rows, so both results hold after any run.
  lemma {:induction false} RunsMatchVectors(ops: seq<Op>)
    ensures VectorsMatch(Run(ops))
  {
    if ops != [] {
      RunsMatchVectors(ops[..|ops| - 1]);
      OperationMatchesVectors(Run(ops[..|ops| - 1]), ops[|ops| - 1]);
    }
  }

  lemma IndexingMatchesVectors(db: Tables, d: Document)
    requires VectorsMatch(db)
    ensures IndexFrom(db, d, 0).Some? ==> VectorsMatch(IndexFrom(db, d, 0).value)
  {
    if IndexFrom(db, d, 0).Some? {
      WholeDocumentIsShown(db, d, IndexFrom(db, d, 0).value);
    }
  }

  lemma OperationMatchesVectors(db: Tables, op: Op)
    requires VectorsMatch(db)
    ensures VectorsMatch(Apply(db, op))
  {
    match op
    case StoreOp(sequence, message) =>
      IndexingMatchesVectors(WithMessage(db, sequence, message), MessageDocument(sequence, message));
    case StoreNoteOp(sequence, n) =>
      IndexingMatchesVectors(WithNote(db, sequence, n), NoteDocument(sequence, n));
    case _ =>
  }

  /**
   A deleted note: exactly the events with its id for a tool call are gone, exactly the rows under it,
   and exactly their vectors; what is left is as it was.
   */
  lemma DeletedNote(db: Tables, note: string, n: nat, id: ChunkId)
    requires VectorsMatch(db) && db.vectors.Keys == db.chunks.Keys
    ensures
      var next := DeleteNote(db, note);
      && (n in next.events <==> n in db.events && db.events[n].toolCallId != Some(note))
      && (n in next.events ==> next.events[n] == db.events[n])
      && (id in next.chunks <==> id in db.chunks && db.chunks[id].note != Some(note))
      && (id in next.chunks ==> next.chunks[id] == db.chunks[id])
      && next.vectors.Keys == next.chunks.Keys && VectorsMatch(next)
      && next.summary == db.summary && next.lastSequence == db.lastSequence && next.scratchpad == db.scratchpad
  {
  }

  // A field is blank exactly when trimming leaves nothing of it.
  lemma BlankIsTrimmedAway(s: string)
    ensures Blank(s) <==> Trim(s) == ""
  {
    TrimStartOf(s);
    TrimEndOf(TrimStart(s));
  }

  lemma {:induction false} TrimStartOf(s: string)
    ensures Blank(s) ==> TrimStart(s) == ""
    ensures !Blank(s) ==> TrimStart(s) != "" && !IsSpace(TrimStart(s)[0])
  {
    if s != "" && IsSpace(s[0]) {
      TrimStartOf(s[1..]);
      assert forall i :: 1 <= i < |s| ==> s[i] == s[1..][i - 1];
    }
  }

  lemma {:induction false} TrimEndOf(s: string)
    requires s != "" ==> !IsSpace(s[0])
    ensures s != "" ==> TrimEnd(s) != ""
  {
    if s != "" && IsSpace(s[|s| - 1]) {
      TrimEndOf(s[..|s| - 1]);
    }
  }

  // -------------------------------------------------------------------------
  // Summaries
  // -------------------------------------------------------------------------

  // The summary in the table has the epoch, the bound and the text of the write applied last.
  lemma SummaryIsTheLastWrite(ops: seq<Op>)
    ensures
      var ws, summary := AppliedWrites(ops), Run(ops).summary;
      if ws == [] then summary == None
      else
        var w := ws[|ws| - 1];
        && summary.Some? && summary.value.epoch == w.next && summary.value.upper == w.upper
        && summary.value.text == w.text
  {
    WritesFormAChain(ops);
  }
}
