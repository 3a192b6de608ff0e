/** What the answer of a hybrid query is, in the numbers and ids of the rows it was given. */
module HybridAnswers {
  import opened Common
  import opened HybridRank
  import opened HybridQuery

  // -------------------------------------------------------------------------
  // Scores of a list
  // -------------------------------------------------------------------------

  // `v` is the score of the chunk in a list: scaled between the list's extremes, 0 when the list lacks it.
  ghost predicate IsScore(cs: seq<Scored>, id: string, v: real) {
    && (forall i :: LastAt(cs, id, i) ==> v == Between(cs[i].raw, Least(cs), Greatest(cs)))
    && (!Listed(cs, id) ==> v == 0.0)
  }

  function Between(raw: real, low: real, high: real): real {
    if high - low <= 0.000001 then 1.0 else (raw - low) / (high - low)
  }

  lemma NormalizedIsScore(scores: Scores, cs: seq<Scored>, id: string)
    requires Normalizes(scores, cs)
    ensures IsScore(cs, id, ScoreIn(scores, id))
  {
    forall i | LastAt(cs, id, i) ensures ScoreIn(scores, id) == Between(cs[i].raw, Least(cs), Greatest(cs)) {
      assert Scaled(cs[i].raw, Least(cs), Greatest(cs)) == Between(cs[i].raw, Least(cs), Greatest(cs));
    }
  }

  // A chunk has one score in a list.
  lemma ScoreIsUnique(cs: seq<Scored>, id: string, v: real, w: real)
    requires IsScore(cs, id, v) && IsScore(cs, id, w)
    ensures v == w
  {
    if Listed(cs, id) {
      var i :| LastAt(cs, id, i);
    }
  }

  lemma Ends(low: real, high: real)
    requires low <= high
    ensures Between(high, low, high) == 1.0
    ensures Between(low, low, high) == if high - low <= 0.000001 then 1.0 else 0.0
  {
    if high - low > 0.000001 {
      OneAndZero(high - low);
    }
  }

  lemma OneAndZero(x: real)
    requires x > 0.0
    ensures x / x == 1.0 && 0.0 / x == 0.0
  {
  }

  // The best of a list has score 1 ...
  lemma BestIsOne(cs: seq<Scored>, id: string, i: int, v: real)
    requires LastAt(cs, id, i) && (forall j :: 0 <= j < |cs| ==> cs[j].raw <= cs[i].raw) && IsScore(cs, id, v)
    ensures v == 1.0
  {
    var low, high := Least(cs), Greatest(cs);
    assert v == Between(cs[i].raw, low, high) && cs[i].raw == high;
    Ends(low, high);
  }

  // ... and the worst 0, unless the list is flat, when all have 1.
  lemma WorstIsZero(cs: seq<Scored>, id: string, i: int, v: real)
    requires LastAt(cs, id, i) && (forall j :: 0 <= j < |cs| ==> cs[i].raw <= cs[j].raw) && IsScore(cs, id, v)
    ensures v == (if Greatest(cs) - Least(cs) <= 0.000001 then 1.0 else 0.0)
  {
    var low, high := Least(cs), Greatest(cs);
    assert v == Between(cs[i].raw, low, high) && cs[i].raw == low;
    Ends(low, high);
  }

  // -------------------------------------------------------------------------
  // The answer
  // -------------------------------------------------------------------------

  predicate InList(cs: seq<Scored>, id: string) {
    exists i :: 0 <= i < |cs| && cs[i].row.chunkId == id
  }

  lemma MergedExplained(merged: Candidates, vector: seq<Scored>, fts: seq<Scored>, vs: Scores, fs: Scores, id: string)
    requires Normalizes(vs, vector) && Normalizes(fs, fts) && Merges(merged, vector + fts, vs, fs)
    ensures id in merged <==> InList(vector + fts, id)
    ensures id in merged ==>
              && merged[id].row.chunkId == id && Some(merged[id].row) == RowOf(vector + fts, id)
              && IsScore(vector, id, merged[id].vectorScore) && IsScore(fts, id, merged[id].ftsScore)
  {
    assert MergesAt(merged, vector + fts, vs, fs, id);
    RowOfHasId(vector + fts, id);
    NormalizedIsScore(vs, vector, id);
    NormalizedIsScore(fs, fts, id);
  }

  // Which row a chunk has: the first in the vector list, else the first in the text list.
  lemma {:induction false} RowIsTheFirst(cs: seq<Scored>, id: string, i: nat)
    requires i < |cs| && cs[i].row.chunkId == id && forall j :: 0 <= j < i ==> cs[j].row.chunkId != id
    ensures RowOf(cs, id) == Some(cs[i].row)
  {
    var front := cs[..|cs| - 1];
    if i < |front| {
      assert front[i] == cs[i] && forall j :: 0 <= j < i ==> front[j] == cs[j];
      RowIsTheFirst(front, id, i);
    } else {
      RowOfHasId(front, id);
      assert forall j :: 0 <= j < |front| ==> front[j] == cs[j];
    }
  }

  lemma FinalHasEntry(merged: Candidates, wv: real, wf: real, x: Merged) returns (id: string)
    requires x in Finals(merged, wv, wf)
    ensures id in merged && x == Weighted(merged[id], wv, wf)
  {
    id :| id in merged && x == Weighted(merged[id], wv, wf);
  }

  lemma EntryIsFinal(merged: Candidates, wv: real, wf: real, id: string)
    requires id in merged
    ensures Weighted(merged[id], wv, wf) in Finals(merged, wv, wf)
  {
  }

  lemma WeightedFields(m: Merged, wv: real, wf: real)
    ensures
      var x := Weighted(m, wv, wf);
      && x.row == m.row && x.vectorScore == m.vectorScore && x.ftsScore == m.ftsScore
      && x.score == wv * m.vectorScore + wf * m.ftsScore
  {
  }

  // `total` is the weighted sum of the two scores.
  predicate Sums(total: real, wv: real, v: real, wf: real, f: real) {
    total == wv * v + wf * f
  }

  predicate Totals(x: Merged, wv: real, wf: real) {
    Sums(x.score, wv, x.vectorScore, wf, x.ftsScore)
  }

  // The entry is a listed chunk, with the row that its lists have for it and its scores in them.
  ghost predicate ScoredAs(x: Merged, vector: seq<Scored>, fts: seq<Scored>) {
    && InList(vector + fts, x.row.chunkId) && Some(x.row) == RowOf(vector + fts, x.row.chunkId)
    && IsScore(vector, x.row.chunkId, x.vectorScore) && IsScore(fts, x.row.chunkId, x.ftsScore)
  }

  lemma FinalTotals(m: Merged, wv: real, wf: real)
    ensures Totals(Weighted(m, wv, wf), wv, wf)
  {
  }

  lemma FinalScored(m: Merged, vector: seq<Scored>, fts: seq<Scored>, wv: real, wf: real)
    requires ScoredAs(m, vector, fts)
    ensures ScoredAs(Weighted(m, wv, wf), vector, fts) && Weighted(m, wv, wf).row == m.row
  {
    WeightedFields(m, wv, wf);
  }

  lemma MergedScored(merged: Candidates, vector: seq<Scored>, fts: seq<Scored>, vs: Scores, fs: Scores, id: string)
    requires Normalizes(vs, vector) && Normalizes(fs, fts) && Merges(merged, vector + fts, vs, fs) && id in merged
    ensures ScoredAs(merged[id], vector, fts) && merged[id].row.chunkId == id
  {
    MergedExplained(merged, vector, fts, vs, fs, id);
  }

  lemma EntryOfAnswer(r: seq<Merged>, vector: seq<Scored>, fts: seq<Scored>, k: nat, wv: real, wf: real,
                      vs: Scores, fs: Scores, merged: Candidates, x: Merged)
    requires AnswerFrom(r, vector, fts, k, wv, wf, vs, fs, merged) && x in r
    ensures Totals(x, wv, wf) && ScoredAs(x, vector, fts)
  {
    var id := FinalHasEntry(merged, wv, wf, x);
    MergedScored(merged, vector, fts, vs, fs, id);
    FinalTotals(merged[id], wv, wf);
    FinalScored(merged[id], vector, fts, wv, wf);
  }

  /** Every entry of an answer is a listed chunk with both its scores and their weighted sum. */
  lemma EntriesAreExplained(r: seq<Merged>, vector: seq<Scored>, fts: seq<Scored>, k: nat, wv: real, wf: real,
                            x: Merged)
    requires IsAnswer(r, vector, fts, k, wv, wf) && x in r
    ensures ScoredAs(x, vector, fts) && Sums(x.score, wv, x.vectorScore, wf, x.ftsScore)
  {
    var vs, fs, merged :| AnswerFrom(r, vector, fts, k, wv, wf, vs, fs, merged);
    EntryOfAnswer(r, vector, fts, k, wv, wf, vs, fs, merged, x);
  }

  // Ahead of another: a higher score, else a more recent chunk, else a smaller id.
  predicate RanksAhead(score: real, recency: nat, id: string, score': real, recency': nat, id': string) {
    || score > score'
    || (score == score' && recency > recency')
    || (score == score' && recency == recency' && LexLess(id, id'))
  }

  lemma AnswerIsOrdered(r: seq<Merged>, vector: seq<Scored>, fts: seq<Scored>, k: nat, wv: real, wf: real,
                        i: nat, j: nat)
    requires IsAnswer(r, vector, fts, k, wv, wf) && i < j < |r|
    ensures RanksAhead(r[i].score, r[i].row.recency, r[i].row.chunkId, r[j].score, r[j].row.recency, r[j].row.chunkId)
  {
    var vs, fs, merged :| AnswerFrom(r, vector, fts, k, wv, wf, vs, fs, merged);
    assert Better(r[i], r[j]);
  }

  /**
   A listed chunk that the answer leaves out: the answer is full, and all its entries rank ahead of the
   chunk's weighted score, recency and id.
   */
  lemma OmittedRanksBehind(r: seq<Merged>, vector: seq<Scored>, fts: seq<Scored>, k: nat, wv: real, wf: real,
                           row: Row, v: real, f: real, total: real)
    requires IsAnswer(r, vector, fts, k, wv, wf) && RowOf(vector + fts, row.chunkId) == Some(row)
    requires IsScore(vector, row.chunkId, v) && IsScore(fts, row.chunkId, f) && Sums(total, wv, v, wf, f)
    requires forall x :: x in r ==> x.row.chunkId != row.chunkId
    ensures |r| == k
    ensures forall x :: x in r ==>
              RanksAhead(x.score, x.row.recency, x.row.chunkId, total, row.recency, row.chunkId)
  {
    var y := OmittedEntry(r, vector, fts, k, wv, wf, row);
    SameTotal(y, vector, fts, wv, wf, v, f, total);
    forall x | x in r ensures RanksAhead(x.score, x.row.recency, x.row.chunkId, total, row.recency, row.chunkId) {
      assert Better(x, y);
    }
  }

  lemma SameTotal(y: Merged, vector: seq<Scored>, fts: seq<Scored>, wv: real, wf: real, v: real, f: real, total: real)
    requires ScoredAs(y, vector, fts) && Totals(y, wv, wf)
    requires IsScore(vector, y.row.chunkId, v) && IsScore(fts, y.row.chunkId, f) && Sums(total, wv, v, wf, f)
    ensures y.score == total
  {
    ScoreIsUnique(vector, y.row.chunkId, v, y.vectorScore);
    ScoreIsUnique(fts, y.row.chunkId, f, y.ftsScore);
    SumsAreUnique(y.score, total, wv, v, wf, f);
  }

  lemma SumsAreUnique(a: real, b: real, wv: real, v: real, wf: real, f: real)
    requires Sums(a, wv, v, wf, f) && Sums(b, wv, v, wf, f)
    ensures a == b
  {
  }

  // The candidate that was left out.
  lemma OmittedEntry(r: seq<Merged>, vector: seq<Scored>, fts: seq<Scored>, k: nat, wv: real, wf: real, row: Row)
    returns (y: Merged)
    requires IsAnswer(r, vector, fts, k, wv, wf) && RowOf(vector + fts, row.chunkId) == Some(row)
    requires forall x :: x in r ==> x.row.chunkId != row.chunkId
    ensures |r| == k && forall x :: x in r ==> Better(x, y)
    ensures y.row == row && Totals(y, wv, wf) && ScoredAs(y, vector, fts)
  {
    var vs, fs, merged :| AnswerFrom(r, vector, fts, k, wv, wf, vs, fs, merged);
    var id := row.chunkId;
    RowOfHasId(vector + fts, id);
    MergedExplained(merged, vector, fts, vs, fs, id);
    MergedScored(merged, vector, fts, vs, fs, id);
    FinalTotals(merged[id], wv, wf);
    FinalScored(merged[id], vector, fts, wv, wf);
    EntryIsFinal(merged, wv, wf, id);
    y := Weighted(merged[id], wv, wf);
    OmittedFinal(r, Finals(merged, wv, wf), k, y);
  }

  lemma OmittedFinal(r: seq<Merged>, all: set<Merged>, k: nat, y: Merged)
    requires IsTopK(r, all, k) && y in all && forall x :: x in r ==> x.row.chunkId != y.row.chunkId
    ensures |r| == k && forall x :: x in r ==> Better(x, y)
  {
    if |r| != k {
      NothingOmitted(r, all);
    }
  }

  // An answer with as many entries as there are candidates has them all.
  lemma NothingOmitted(r: seq<Merged>, all: set<Merged>)
    requires (forall x :: x in r ==> x in all) && |r| == |all| && Ranked(r)
    ensures forall y :: y in all ==> y in r
  {
    var elements := Elements(r);
    RankedCount(r);
    if y :| y in all && y !in r {
      assert elements <= all - {y};
      SubsetCount(elements, all - {y});
    }
  }

  lemma SubsetCount<T>(a: set<T>, b: set<T>)
    requires a <= b
    ensures |a| <= |b|
  {
    assert b == a + (b - a);
  }

  lemma {:induction false} RankedCount(r: seq<Merged>)
    requires Ranked(r)
    ensures |Elements(r)| == |r|
  {
    if r == [] {
      assert Elements(r) == {};
    } else {
      var front, x := r[..|r| - 1], r[|r| - 1];
      RankedCount(front);
      assert r == front + [x];
      forall i | 0 <= i < |front| ensures front[i] != x {
        assert Better(r[i], x);
        BetterIsStrictTotalOrder(x, x, x);
      }
      assert Elements(r) == Elements(front) + {x};
    }
  }

  /** With the greater weight on vectors, a chunk that only they found, at 1, comes before one that only text found. */
  lemma GreaterWeightRanksFirst(r: seq<Merged>, vector: seq<Scored>, fts: seq<Scored>, k: nat, wv: real, wf: real,
                                i: nat, j: nat)
    requires IsAnswer(r, vector, fts, k, wv, wf) && i < |r| && j < |r| && wv > wf
    requires IsScore(vector, r[i].row.chunkId, 1.0) && !Listed(fts, r[i].row.chunkId)
    requires !Listed(vector, r[j].row.chunkId) && IsScore(fts, r[j].row.chunkId, 1.0)
    ensures i < j
  {
    OneSidedScore(r, vector, fts, k, wv, wf, r[i], 1.0, 0.0, wv);
    OneSidedScore(r, vector, fts, k, wv, wf, r[j], 0.0, 1.0, wf);
    if j < i {
      AnswerIsOrdered(r, vector, fts, k, wv, wf, j, i);
    }
  }

  lemma OneSidedScore(r: seq<Merged>, vector: seq<Scored>, fts: seq<Scored>, k: nat, wv: real, wf: real,
                      x: Merged, v: real, f: real, total: real)
    requires IsAnswer(r, vector, fts, k, wv, wf) && x in r
    requires IsScore(vector, x.row.chunkId, v) && IsScore(fts, x.row.chunkId, f) && Sums(total, wv, v, wf, f)
    ensures x.score == total
  {
    EntriesAreExplained(r, vector, fts, k, wv, wf, x);
    SameTotal(x, vector, fts, wv, wf, v, f, total);
  }

  // -------------------------------------------------------------------------
  // The order of ids
  // -------------------------------------------------------------------------

  // The strings agree before `n`, where the first ends or has the smaller character.
  predicate DiffersAt(a: string, b: string, n: int) {
    0 <= n < |b| && n <= |a| && a[..n] == b[..n] && (n == |a| || a[n] < b[n])
  }

  lemma DiffersAtMore(a: string, b: string, n: int)
    requires a != "" && b != "" && a[0] == b[0] && n >= 0
    ensures DiffersAt(a, b, n + 1) <==> DiffersAt(a[1..], b[1..], n)
  {
    if n < |b| - 1 && n <= |a| - 1 {
      assert a[..n + 1] == [a[0]] + a[1..][..n] && b[..n + 1] == [b[0]] + b[1..][..n];
      assert a[1..][..n] == a[..n + 1][1..] && b[1..][..n] == b[..n + 1][1..];
    }
  }

  lemma DiffersAtFront(a: string, b: string, n: int)
    requires DiffersAt(a, b, n) && n > 0
    ensures a != "" && a[0] == b[0]
  {
    assert a[..n][0] == b[..n][0];
  }

  lemma {:induction false} LexLessAtFirstDifference(a: string, b: string)
    ensures LexLess(a, b) <==> exists n :: DiffersAt(a, b, n)
    decreases |b|
  {
    if b != "" && a != "" && a[0] == b[0] {
      LexLessAtFirstDifference(a[1..], b[1..]);
      if n :| DiffersAt(a[1..], b[1..], n) {
        DiffersAtMore(a, b, n);
      }
      if n :| DiffersAt(a, b, n) {
        DiffersAtMore(a, b, n - 1);
      }
    } else {
      assert LexLess(a, b) ==> DiffersAt(a, b, 0);
      forall n | DiffersAt(a, b, n) ensures n == 0 {
        if n > 0 {
          DiffersAtFront(a, b, n);
        }
      }
    }
  }
}
