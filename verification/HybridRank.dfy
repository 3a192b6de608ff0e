/**
 Ranking the results of a hybrid query: two lists of scored candidates are scaled, merged by
 chunk id, weighted, sorted and cut.  Scores are real numbers.
 */
module HybridRank {
  import opened Common

  const EPSILON: real := 0.000001
  const CANDIDATE_MULTIPLIER: nat := 4
  const DEFAULT_TOP_K: nat := 8
  const DEFAULT_VECTOR_WEIGHT: real := 0.7
  const DEFAULT_FTS_WEIGHT: real := 0.3

  datatype Row = Row(chunkId: string, text: string, recency: nat)

  datatype Scored = Scored(row: Row, raw: real)

  datatype Merged = Merged(row: Row, score: real, vectorScore: real, ftsScore: real)

  // By chunk id.
  type Scores = map<string, real>
  type Candidates = map<string, Merged>

  // -------------------------------------------------------------------------
  // Scaling scores
  // -------------------------------------------------------------------------

  // The fold that finds the extremes.
  function Least(cs: seq<Scored>): (x: real)
    requires cs != []
    ensures forall i :: 0 <= i < |cs| ==> x <= cs[i].raw
    ensures exists i :: 0 <= i < |cs| && cs[i].raw == x
  {
    var last := cs[|cs| - 1].raw;
    if |cs| == 1 then last
    else
      var x := Least(cs[..|cs| - 1]);
      if last < x then last else x
  }

  function Greatest(cs: seq<Scored>): (x: real)
    requires cs != []
    ensures forall i :: 0 <= i < |cs| ==> cs[i].raw <= x
    ensures exists i :: 0 <= i < |cs| && cs[i].raw == x
  {
    var last := cs[|cs| - 1].raw;
    if |cs| == 1 then last
    else
      var x := Greatest(cs[..|cs| - 1]);
      if last > x then last else x
  }

  function Scaled(raw: real, low: real, high: real): real {
    if high - low <= EPSILON then 1.0 else (raw - low) / (high - low)
  }

  // The position of a chunk id's last row.
  predicate LastAt(cs: seq<Scored>, id: string, i: int) {
    0 <= i < |cs| && cs[i].row.chunkId == id && forall j :: i < j < |cs| ==> cs[j].row.chunkId != id
  }

  ghost predicate Listed(cs: seq<Scored>, id: string) {
    exists i :: LastAt(cs, id, i)
  }

  // Each listed chunk has the score of its last row, scaled; no other chunk has one.
  ghost predicate ScaledBetween(scores: Scores, cs: seq<Scored>, low: real, high: real) {
    && (forall id :: id in scores ==> Listed(cs, id))
    && forall id, i :: LastAt(cs, id, i) ==> id in scores && scores[id] == Scaled(cs[i].raw, low, high)
  }

  ghost predicate Normalizes(scores: Scores, cs: seq<Scored>) {
    if cs == [] then scores == map[] else ScaledBetween(scores, cs, Least(cs), Greatest(cs))
  }

  method NormalizeScores(cs: seq<Scored>) returns (scores: Scores)
    ensures Normalizes(scores, cs)
  {
    scores := map[];
    if cs == [] {
      return;
    }
    var low, high := Least(cs), Greatest(cs);
    for n := 0 to |cs|
      invariant ScaledBetween(scores, cs[..n], low, high)
    {
      OneMoreScaled(scores, cs[..n], cs[n], low, high);
      assert cs[..n + 1] == cs[..n] + [cs[n]];
      scores := scores[cs[n].row.chunkId := Scaled(cs[n].raw, low, high)];
    }
    assert cs[..|cs|] == cs;
  }

  lemma LastOfMore(cs: seq<Scored>, c: Scored, id: string, i: int)
    ensures LastAt(cs + [c], id, i) <==> if c.row.chunkId == id then i == |cs| else LastAt(cs, id, i)
  {
    var all := cs + [c];
    assert all[|cs|] == c && forall j :: 0 <= j < |cs| ==> all[j] == cs[j];
  }

  lemma OneMoreScaled(scores: Scores, cs: seq<Scored>, c: Scored, low: real, high: real)
    requires ScaledBetween(scores, cs, low, high)
    ensures ScaledBetween(scores[c.row.chunkId := Scaled(c.raw, low, high)], cs + [c], low, high)
  {
    var next := scores[c.row.chunkId := Scaled(c.raw, low, high)];
    var all := cs + [c];
    forall id | id in next ensures Listed(all, id) {
      var i := if id == c.row.chunkId then |cs| else var i :| LastAt(cs, id, i); i;
      LastOfMore(cs, c, id, i);
    }
    forall id, i | LastAt(all, id, i) ensures id in next && next[id] == Scaled(all[i].raw, low, high) {
      LastOfMore(cs, c, id, i);
    }
  }

  predicate InUnit(x: real) {
    0.0 <= x <= 1.0
  }

  lemma Ratio(a: real, b: real)
    requires 0.0 <= a <= b && 0.0 < b
    ensures InUnit(a / b)
  {
  }

  lemma ScaledInUnit(raw: real, low: real, high: real)
    requires low <= raw <= high
    ensures InUnit(Scaled(raw, low, high))
  {
    if high - low > EPSILON {
      Ratio(raw - low, high - low);
    }
  }

  // Normalized scores lie between 0 and 1.
  lemma NormalizedInUnit(scores: Scores, cs: seq<Scored>, id: string)
    requires Normalizes(scores, cs) && id in scores
    ensures InUnit(scores[id])
  {
    var i :| LastAt(cs, id, i);
    ScaledInUnit(cs[i].raw, Least(cs), Greatest(cs));
  }

  // Scaling keeps the order of raw scores, and tells them apart unless it flattens all to 1.
  lemma ScalingKeepsOrder(a: real, b: real, low: real, high: real)
    requires low <= a < b <= high
    ensures if high - low <= EPSILON then Scaled(a, low, high) == Scaled(b, low, high) == 1.0
            else Scaled(a, low, high) < Scaled(b, low, high)
  {
    if high - low > EPSILON {
      var r := high - low;
      assert (b - low) / r - (a - low) / r == (b - a) / r;
      assert (b - a) / r > 0.0;
    }
  }

  // -------------------------------------------------------------------------
  // Merging
  // -------------------------------------------------------------------------

  // The first row with an id.
  function RowOf(cs: seq<Scored>, id: string): Option<Row> {
    if cs == [] then None
    else
      var before := RowOf(cs[..|cs| - 1], id);
      if before.None? && cs[|cs| - 1].row.chunkId == id then Some(cs[|cs| - 1].row) else before
  }

  function ScoreIn(scores: Scores, id: string): real {
    if id in scores then scores[id] else 0.0
  }

  // What a chunk amounts to: its row from the vector list if it is there, and both scores.
  function EntryOf(row: Row, vs: Scores, fs: Scores): Merged {
    Merged(row, 0.0, ScoreIn(vs, row.chunkId), ScoreIn(fs, row.chunkId))
  }

  predicate MergesAt(m: Candidates, cs: seq<Scored>, vs: Scores, fs: Scores, id: string) {
    match RowOf(cs, id)
    case None => id !in m
    case Some(row) => id in m && m[id] == EntryOf(row, vs, fs)
  }

  // One entry for each chunk of the lists, with both its scores.
  ghost predicate Merges(m: Candidates, cs: seq<Scored>, vs: Scores, fs: Scores) {
    forall id :: MergesAt(m, cs, vs, fs, id)
  }

  // The entry that a candidate finds or makes.
  function EntryFor(m: Candidates, row: Row): Merged {
    if row.chunkId in m then m[row.chunkId] else Merged(row, 0.0, 0.0, 0.0)
  }

  lemma RowOfMore(cs: seq<Scored>, c: Scored, id: string)
    ensures RowOf(cs + [c], id) == if RowOf(cs, id).None? && c.row.chunkId == id then Some(c.row) else RowOf(cs, id)
  {
    assert (cs + [c])[..|cs|] == cs;
  }

  lemma {:induction false} RowOfHasId(cs: seq<Scored>, id: string)
    ensures RowOf(cs, id).Some? ==> RowOf(cs, id).value.chunkId == id
    ensures RowOf(cs, id).Some? <==> exists i :: 0 <= i < |cs| && cs[i].row.chunkId == id
  {
    if cs != [] {
      var front := cs[..|cs| - 1];
      RowOfHasId(front, id);
      if RowOf(front, id).Some? {
        var i :| 0 <= i < |front| && front[i].row.chunkId == id;
        assert cs[i].row.chunkId == id;
      }
      if i :| 0 <= i < |cs| && cs[i].row.chunkId == id && i < |front| {
        assert front[i].row.chunkId == id;
      }
    }
  }

  // Exactly the chunks of a list have a normalized score.
  lemma ScoredAreListed(scores: Scores, cs: seq<Scored>, id: string)
    requires Normalizes(scores, cs)
    ensures id in scores <==> RowOf(cs, id).Some?
  {
    RowOfHasId(cs, id);
    if RowOf(cs, id).Some? {
      var i :| 0 <= i < |cs| && cs[i].row.chunkId == id;
      LastExists(cs, id, i);
    }
  }

  lemma {:induction false} LastExists(cs: seq<Scored>, id: string, i: nat)
    requires i < |cs| && cs[i].row.chunkId == id
    ensures Listed(cs, id)
    decreases |cs| - i
  {
    if j :| i < j < |cs| && cs[j].row.chunkId == id {
      LastExists(cs, id, j);
    } else {
      assert LastAt(cs, id, i);
    }
  }

  lemma VectorEntryMerges(m: Candidates, cs: seq<Scored>, c: Scored, vs: Scores)
    requires Merges(m, cs, vs, map[])
    ensures Merges(m[c.row.chunkId := EntryFor(m, c.row).(vectorScore := ScoreIn(vs, c.row.chunkId))],
                   cs + [c], vs, map[])
  {
    var next := m[c.row.chunkId := EntryFor(m, c.row).(vectorScore := ScoreIn(vs, c.row.chunkId))];
    forall id ensures MergesAt(next, cs + [c], vs, map[], id) {
      assert MergesAt(m, cs, vs, map[], id);
      RowOfMore(cs, c, id);
      RowOfHasId(cs, id);
    }
  }

  lemma FtsEntryMerges(m: Candidates, cs: seq<Scored>, c: Scored, vs: Scores, done: Scores, score: real)
    requires Merges(m, cs, vs, done) && vs.Keys <= m.Keys && done.Keys <= m.Keys
    ensures Merges(m[c.row.chunkId := EntryFor(m, c.row).(ftsScore := score)],
                   cs + [c], vs, done[c.row.chunkId := score])
  {
    var next := m[c.row.chunkId := EntryFor(m, c.row).(ftsScore := score)];
    var all, scores := cs + [c], done[c.row.chunkId := score];
    forall id ensures MergesAt(next, all, vs, scores, id) {
      assert MergesAt(m, cs, vs, done, id);
      RowOfMore(cs, c, id);
      RowOfHasId(cs, id);
    }
  }

  method MergeVector(vector: seq<Scored>, vs: Scores) returns (merged: Candidates)
    ensures Merges(merged, vector, vs, map[])
  {
    merged := map[];
    for n := 0 to |vector|
      invariant Merges(merged, vector[..n], vs, map[])
    {
      var row := vector[n].row;
      VectorEntryMerges(merged, vector[..n], vector[n], vs);
      assert vector[..n + 1] == vector[..n] + [vector[n]];
      merged := merged[row.chunkId := EntryFor(merged, row).(vectorScore := ScoreIn(vs, row.chunkId))];
    }
    assert vector[..|vector|] == vector;
  }

  // The scores of the candidates met so far.
  ghost predicate Part(done: Scores, fs: Scores, cs: seq<Scored>) {
    && (forall id :: id in done <==> RowOf(cs, id).Some?)
    && forall id :: id in done ==> done[id] == ScoreIn(fs, id)
  }

  lemma OneMorePart(done: Scores, fs: Scores, cs: seq<Scored>, c: Scored)
    requires Part(done, fs, cs)
    ensures Part(done[c.row.chunkId := ScoreIn(fs, c.row.chunkId)], fs, cs + [c])
  {
    forall id ensures RowOf(cs + [c], id).Some? <==> RowOf(cs, id).Some? || id == c.row.chunkId {
      RowOfMore(cs, c, id);
    }
  }

  lemma WholePart(done: Scores, fs: Scores, cs: seq<Scored>)
    requires Part(done, fs, cs) && Normalizes(fs, cs)
    ensures done == fs
  {
    forall id ensures id in fs <==> id in done {
      ScoredAreListed(fs, cs, id);
    }
  }

  lemma ScoredAreMerged(merged: Candidates, cs: seq<Scored>, scores: Scores)
    requires Merges(merged, cs, scores, map[]) && Normalizes(scores, cs)
    ensures scores.Keys <= merged.Keys
  {
    forall id | id in scores ensures id in merged {
      ScoredAreListed(scores, cs, id);
      assert MergesAt(merged, cs, scores, map[], id);
    }
  }

  // The second pass after `n` candidates.
  ghost predicate FtsSoFar(merged: Candidates, vector: seq<Scored>, vs: Scores, fts: seq<Scored>, fs: Scores,
                           n: nat, done: Scores)
    requires n <= |fts|
  {
    && Merges(merged, vector + fts[..n], vs, done) && Part(done, fs, fts[..n])
    && vs.Keys <= merged.Keys && done.Keys <= merged.Keys
  }

  lemma FtsStep(merged: Candidates, vector: seq<Scored>, vs: Scores, fts: seq<Scored>, fs: Scores, n: nat, done: Scores)
    requires n < |fts| && FtsSoFar(merged, vector, vs, fts, fs, n, done)
    ensures
      var row := fts[n].row;
      var score := ScoreIn(fs, row.chunkId);
      FtsSoFar(merged[row.chunkId := EntryFor(merged, row).(ftsScore := score)], vector, vs, fts, fs, n + 1,
               done[row.chunkId := score])
  {
    FtsEntryMerges(merged, vector + fts[..n], fts[n], vs, done, ScoreIn(fs, fts[n].row.chunkId));
    OneMorePart(done, fs, fts[..n], fts[n]);
    assert vector + fts[..n + 1] == vector + fts[..n] + [fts[n]] && fts[..n + 1] == fts[..n] + [fts[n]];
  }

  method MergeFts(first: Candidates, vector: seq<Scored>, vs: Scores, fts: seq<Scored>, fs: Scores)
    returns (merged: Candidates)
    requires Merges(first, vector, vs, map[]) && Normalizes(vs, vector) && Normalizes(fs, fts)
    ensures Merges(merged, vector + fts, vs, fs)
  {
    merged := first;
    ScoredAreMerged(first, vector, vs);
    assert vector + fts[..0] == vector;
    ghost var done: Scores := map[];
    for n := 0 to |fts|
      invariant FtsSoFar(merged, vector, vs, fts, fs, n, done)
    {
      var row := fts[n].row;
      FtsStep(merged, vector, vs, fts, fs, n, done);
      merged := merged[row.chunkId := EntryFor(merged, row).(ftsScore := ScoreIn(fs, row.chunkId))];
      done := done[row.chunkId := ScoreIn(fs, row.chunkId)];
    }
    assert fts[..|fts|] == fts;
    WholePart(done, fs, fts);
  }
}
