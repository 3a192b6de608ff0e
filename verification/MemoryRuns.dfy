/**
 Runs of the memory store: any serial order of transactions on one session, and what the
 session's summary goes through in it.
 */
module MemoryRuns {
  import opened Common
  import opened Memory

  datatype Op =
    | StoreOp(sequence: nat, message: Message)
    | StoreNoteOp(sequence: nat, n: Note)
    | DeleteNoteOp(note: string)
    | SummaryOp(write: SummaryWrite)
    | ScratchpadOp(items: seq<string>)
    | ClearScratchpadOp

  // A transaction's effect; None when it fails.
  ghost function Effect(db: Tables, op: Op): Option<Tables> {
    match op
    case StoreOp(sequence, message) => Store(db, sequence, message)
    case StoreNoteOp(sequence, n) => StoreNote(db, sequence, n)
    case DeleteNoteOp(note) => Some(DeleteNote(db, note))
    case SummaryOp(w) => (match WriteSummary(db, w) case None => None case Some((next, _)) => Some(next))
    case ScratchpadOp(items) => Some(db.(scratchpad := Some(items)))
    case ClearScratchpadOp => Some(db.(scratchpad := None))
  }

  // A failed transaction is rolled back.
  ghost function Apply(db: Tables, op: Op): Tables {
    match Effect(db, op)
    case None => db
    case Some(next) => next
  }

  ghost function Run(ops: seq<Op>): Tables {
    if ops == [] then EmptyTables
    else Apply(Run(ops[..|ops| - 1]), ops[|ops| - 1])
  }

  // -------------------------------------------------------------------------
  // What indexing leaves alone
  // -------------------------------------------------------------------------

  predicate SameOutsideIndex(a: Tables, b: Tables) {
    a.(chunks := b.chunks, vectors := b.vectors) == b
  }

  // What every chunk keeps, a document keeps.
  lemma {:induction false} EachChunkKeeps(p: (Tables, nat) -> bool, db: Tables, d: Document, index: nat)
    requires index <= |d.hashes| && p(db, index)
    requires forall t: Tables, i: nat ::
               i < |d.hashes| && p(t, i) && IndexOne(t, d, i).Some? ==> p(IndexOne(t, d, i).value, i + 1)
    ensures var r := IndexFrom(db, d, index);
            r.Some? ==> p(r.value, |d.hashes|)
    decreases |d.hashes| - index
  {
    if index < |d.hashes| {
      var one := IndexOne(db, d, index);
      if one.Some? {
        EachChunkKeeps(p, one.value, d, index + 1);
      }
    }
  }

  lemma IndexingTouchesTheIndexOnly(db: Tables, d: Document)
    ensures var r := IndexFrom(db, d, 0);
            r.Some? ==> SameOutsideIndex(db, r.value)
  {
    EachChunkKeeps((t: Tables, i: nat) => SameOutsideIndex(db, t), db, d, 0);
  }

  // -------------------------------------------------------------------------
  // Summaries
  // -------------------------------------------------------------------------

  function Applied(db: Tables, op: Op): seq<SummaryWrite> {
    if !op.SummaryOp? then []
    else
      match WriteSummary(db, op.write)
      case Some((_, true)) => [op.write]
      case _ => []
  }

  // The writes that a run applied, in order.
  ghost function AppliedWrites(ops: seq<Op>): seq<SummaryWrite> {
    if ops == [] then []
    else
      var before := ops[..|ops| - 1];
      AppliedWrites(before) + Applied(Run(before), ops[|ops| - 1])
  }

  function SummaryOf(w: SummaryWrite): Summary {
    Summary(w.next, w.upper, w.text)
  }

  // Each write names the epoch that the write before it made, and moves it and the bound forward.
  predicate Chain(ws: seq<SummaryWrite>) {
    && (forall i :: 0 <= i < |ws| ==> ws[i].expected < ws[i].next)
    && (ws != [] ==> ws[0].expected == 0)
    && forall i :: 0 < i < |ws| ==> ws[i].expected == ws[i - 1].next && ws[i - 1].upper <= ws[i].upper
  }

  predicate EndsIn(ws: seq<SummaryWrite>, s: Option<Summary>) {
    s == if ws == [] then None else Some(SummaryOf(ws[|ws| - 1]))
  }

  // Only a summary write touches the summary; not even a failed transaction does.
  lemma OtherTransactionsKeepTheSummary(db: Tables, op: Op)
    requires !op.SummaryOp?
    ensures Apply(db, op).summary == db.summary
  {
    match op
    case StoreOp(sequence, message) =>
      IndexingTouchesTheIndexOnly(WithMessage(db, sequence, message), MessageDocument(sequence, message));
    case StoreNoteOp(sequence, n) =>
      IndexingTouchesTheIndexOnly(WithNote(db, sequence, n), NoteDocument(sequence, n));
    case _ =>
  }

  lemma {:induction false} WritesFormAChain(ops: seq<Op>)
    ensures Chain(AppliedWrites(ops))
    ensures EndsIn(AppliedWrites(ops), Run(ops).summary)
  {
    if ops != [] {
      var before, op := ops[..|ops| - 1], ops[|ops| - 1];
      WritesFormAChain(before);
      if op.SummaryOp? {
        ChainExtends(Run(before), AppliedWrites(before), op.write);
      } else {
        OtherTransactionsKeepTheSummary(Run(before), op);
        assert AppliedWrites(ops) == AppliedWrites(before);
      }
    }
  }

  // The write continues the chain.
  predicate Links(ws: seq<SummaryWrite>, w: SummaryWrite) {
    && w.expected < w.next
    && if ws == [] then w.expected == 0 else w.expected == ws[|ws| - 1].next && ws[|ws| - 1].upper <= w.upper
  }

  lemma LinkedChain(ws: seq<SummaryWrite>, w: SummaryWrite)
    requires Chain(ws) && Links(ws, w)
    ensures Chain(ws + [w])
  {
    var next := ws + [w];
    assert forall i :: 0 <= i < |ws| ==> next[i] == ws[i];
    forall i | 0 < i < |next| ensures next[i].expected == next[i - 1].next && next[i - 1].upper <= next[i].upper {
      if i == |ws| {
        assert next[i - 1] == ws[|ws| - 1];
      } else {
        assert next[i - 1] == ws[i - 1];
      }
    }
  }

  lemma ChainExtends(db: Tables, ws: seq<SummaryWrite>, w: SummaryWrite)
    requires Chain(ws) && EndsIn(ws, db.summary)
    ensures var next := ws + Applied(db, SummaryOp(w));
            Chain(next) && EndsIn(next, Apply(db, SummaryOp(w)).summary)
  {
    assert EpochOf(db.summary) == if ws == [] then 0 else ws[|ws| - 1].next;
    if WriteSummary(db, w) == Some((db.(summary := Some(SummaryOf(w))), true)) {
      LinkedChain(ws, w);
      assert Applied(db, SummaryOp(w)) == [w];
    } else {
      assert Applied(db, SummaryOp(w)) == [];
      assert ws + [] == ws;
    }
  }

  // A later link starts at or above the epoch an earlier one made.
  lemma {:induction false} ChainClimbs(ws: seq<SummaryWrite>, i: nat, j: nat)
    requires Chain(ws) && i < j < |ws|
    ensures ws[i].next <= ws[j].expected && ws[i].upper <= ws[j].upper
    decreases j
  {
    if i < j - 1 {
      ChainClimbs(ws, i, j - 1);
    }
  }

  /**
   The compare-and-swap law: over every run, applied epochs strictly increase, one write at most
   applies per expected epoch, the upper sequence never goes back, and the summary read at the
   end is the one applied last.
   */
  lemma SummaryWritesAreSerialized(ops: seq<Op>)
    ensures var ws := AppliedWrites(ops);
            && EndsIn(ws, Run(ops).summary)
            && forall i: nat, j: nat :: i < j < |ws| ==>
                 && ws[i].next < ws[j].next
                 && ws[i].expected != ws[j].expected
                 && ws[i].upper <= ws[j].upper
  {
    var ws := AppliedWrites(ops);
    WritesFormAChain(ops);
    forall i: nat, j: nat | i < j < |ws|
      ensures ws[i].next < ws[j].next && ws[i].expected != ws[j].expected && ws[i].upper <= ws[j].upper
    {
      ChainClimbs(ws, i, j);
    }
  }

  lemma HeadDecides(db: Tables, ws: seq<SummaryWrite>, w: SummaryWrite)
    requires EndsIn(ws, db.summary)
    ensures var head := if ws == [] then 0 else ws[|ws| - 1].next;
            && (Applied(db, SummaryOp(w)) == [w] <==>
                  w.expected == head < w.next && (ws == [] || ws[|ws| - 1].upper <= w.upper))
            && (w.expected != head && w.expected < w.next ==> WriteSummary(db, w) == Some((db, false)))
  {
  }

  /**
   Which writes go through: after any run, a write applies exactly when it moves the epoch
   forward, names the last applied epoch (0 before any) and does not take the bound back.  A stale
   write that moves forward is answered rather than failed.
   */
  lemma WriteAppliesExactlyAtTheHead(ops: seq<Op>, w: SummaryWrite)
    ensures var ws := AppliedWrites(ops);
            var head := if ws == [] then 0 else ws[|ws| - 1].next;
            && (Applied(Run(ops), SummaryOp(w)) == [w] <==>
                  w.expected == head < w.next && (ws == [] || ws[|ws| - 1].upper <= w.upper))
            && (w.expected != head && w.expected < w.next ==> WriteSummary(Run(ops), w) == Some((Run(ops), false)))
  {
    WritesFormAChain(ops);
    HeadDecides(Run(ops), AppliedWrites(ops), w);
  }
}
