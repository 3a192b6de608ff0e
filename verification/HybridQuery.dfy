/** The hybrid query as a whole, and why its answer does not depend on the order of a hash map. */
module HybridQuery {
  import opened Common
  import opened TextChunks
  import opened HybridRank

  // -------------------------------------------------------------------------
  // The ranking order
  // -------------------------------------------------------------------------

  // Strings compare by code point, which is how their UTF-8 bytes compare.
  predicate LexLess(a: string, b: string) {
    if b == "" then false
    else if a == "" then true
    else a[0] < b[0] || (a[0] == b[0] && LexLess(a[1..], b[1..]))
  }

  // Higher score first, then the more recent chunk, then the smaller chunk id.
  predicate Better(a: Merged, b: Merged) {
    if a.score != b.score then a.score > b.score
    else if a.row.recency != b.row.recency then a.row.recency > b.row.recency
    else LexLess(a.row.chunkId, b.row.chunkId)
  }

  lemma {:induction false} LexTotal(a: string, b: string)
    ensures (if LexLess(a, b) then 1 else 0) + (if LexLess(b, a) then 1 else 0) + (if a == b then 1 else 0) == 1
    decreases |a|
  {
    if a != "" && b != "" {
      assert a == [a[0]] + a[1..] && b == [b[0]] + b[1..];
      LexTotal(a[1..], b[1..]);
    }
  }

  lemma {:induction false} LexTransitive(a: string, b: string, c: string)
    requires LexLess(a, b) && LexLess(b, c)
    ensures LexLess(a, c)
    decreases |a|
  {
    if a != "" && a[0] == b[0] == c[0] {
      LexTransitive(a[1..], b[1..], c[1..]);
    }
  }

  /** A strict total order on candidates with different chunk ids. */
  lemma BetterIsStrictTotalOrder(a: Merged, b: Merged, c: Merged)
    ensures !Better(a, a)
    ensures !(Better(a, b) && Better(b, a))
    ensures Better(a, b) && Better(b, c) ==> Better(a, c)
    ensures a.row.chunkId != b.row.chunkId ==> Better(a, b) || Better(b, a)
  {
    LexTotal(a.row.chunkId, a.row.chunkId);
    LexTotal(a.row.chunkId, b.row.chunkId);
    if LexLess(a.row.chunkId, b.row.chunkId) && LexLess(b.row.chunkId, c.row.chunkId) {
      LexTransitive(a.row.chunkId, b.row.chunkId, c.row.chunkId);
    }
  }

  // -------------------------------------------------------------------------
  // Sorting
  // -------------------------------------------------------------------------

  ghost predicate Ranked(s: seq<Merged>) {
    forall i, j :: 0 <= i < j < |s| ==> Better(s[i], s[j])
  }

  predicate NewTo(x: Merged, s: seq<Merged>) {
    forall i :: 0 <= i < |s| ==> s[i].row.chunkId != x.row.chunkId
  }

  predicate DistinctIds(s: seq<Merged>) {
    forall i, j :: 0 <= i < j < |s| ==> s[i].row.chunkId != s[j].row.chunkId
  }

  function Insert(x: Merged, s: seq<Merged>): (r: seq<Merged>)
    ensures |r| == |s| + 1 && forall y :: y in r <==> y == x || y in s
  {
    if s == [] || Better(x, s[0]) then [x] + s
    else
      var rest := Insert(x, s[1..]);
      assert s == [s[0]] + s[1..];
      [s[0]] + rest
  }

  // The library's sort; what it does to equal elements does not matter, as there are none.
  function Sorted(s: seq<Merged>): (r: seq<Merged>)
    ensures |r| == |s| && forall y :: y in r <==> y in s
  {
    if s == [] then []
    else
      assert s == s[..|s| - 1] + [s[|s| - 1]];
      Insert(s[|s| - 1], Sorted(s[..|s| - 1]))
  }

  lemma RankedCons(x: Merged, s: seq<Merged>)
    requires Ranked(s) && forall y :: y in s ==> Better(x, y)
    ensures Ranked([x] + s)
  {
    var r := [x] + s;
    forall i, j | 0 <= i < j < |r| ensures Better(r[i], r[j]) {
      assert r[j] == s[j - 1];
      if i > 0 {
        assert r[i] == s[i - 1];
      } else {
        assert s[j - 1] in s;
      }
    }
  }

  lemma RankedTail(s: seq<Merged>)
    requires Ranked(s) && s != []
    ensures Ranked(s[1..]) && forall y :: y in s[1..] ==> Better(s[0], y)
  {
    forall y | y in s[1..] ensures Better(s[0], y) {
      var j :| 0 <= j < |s[1..]| && s[1..][j] == y;
      assert s[j + 1] == y;
    }
    forall i, j | 0 <= i < j < |s[1..]| ensures Better(s[1..][i], s[1..][j]) {
      assert Better(s[i + 1], s[j + 1]);
    }
  }

  lemma {:induction false} InsertRanks(x: Merged, s: seq<Merged>)
    requires Ranked(s) && NewTo(x, s)
    ensures Ranked(Insert(x, s))
    decreases |s|
  {
    if s == [] {
      RankedCons(x, s);
    } else {
      RankedTail(s);
      BetterIsStrictTotalOrder(x, s[0], x);
      if Better(x, s[0]) {
        forall y | y in s ensures Better(x, y) {
          BetterIsStrictTotalOrder(x, s[0], y);
          assert s == [s[0]] + s[1..];
        }
        RankedCons(x, s);
      } else {
        assert s[0].row.chunkId != x.row.chunkId;
        InsertRanks(x, s[1..]);
        RankedCons(s[0], Insert(x, s[1..]));
      }
    }
  }

  lemma {:induction false} SortedIsRanked(s: seq<Merged>)
    requires DistinctIds(s)
    ensures Ranked(Sorted(s))
    decreases |s|
  {
    if s != [] {
      var front, x := s[..|s| - 1], s[|s| - 1];
      SortedIsRanked(front);
      var r := Sorted(front);
      forall i | 0 <= i < |r| ensures r[i].row.chunkId != x.row.chunkId {
        assert r[i] in front;
        var j :| 0 <= j < |front| && front[j] == r[i];
        assert s[j] == r[i];
      }
      InsertRanks(x, r);
    }
  }

  // -------------------------------------------------------------------------
  // The best k
  // -------------------------------------------------------------------------

  // The answer: `r` lists the best min(k, |all|) candidates of `all`, best first.
  ghost predicate IsTopK(r: seq<Merged>, all: set<Merged>, k: nat) {
    && (forall x :: x in r ==> x in all)
    && Ranked(r)
    && |r| == (if k < |all| then k else |all|)
    && forall x, y :: x in r && y in all && y !in r ==> Better(x, y)
  }

  lemma {:induction false} SamePrefix(r: seq<Merged>, s: seq<Merged>, all: set<Merged>, k: nat, n: nat)
    requires IsTopK(r, all, k) && IsTopK(s, all, k) && n <= |r|
    ensures r[..n] == s[..n]
    decreases n
  {
    if n > 0 {
      SamePrefix(r, s, all, k, n - 1);
      if r[n - 1] != s[n - 1] {
        LaterIsWorse(r, s, all, k, n - 1);
        LaterIsWorse(s, r, all, k, n - 1);
        BetterIsStrictTotalOrder(r[n - 1], s[n - 1], r[n - 1]);
        assert false;
      }
      assert r[..n] == r[..n - 1] + [r[n - 1]] && s[..n] == s[..n - 1] + [s[n - 1]];
    }
  }

  // Where two answers first differ, what the one has there comes later or nowhere in the other.
  lemma LaterIsWorse(r: seq<Merged>, s: seq<Merged>, all: set<Merged>, k: nat, n: nat)
    requires IsTopK(r, all, k) && IsTopK(s, all, k) && n < |r| && r[..n] == s[..n] && r[n] != s[n]
    ensures Better(s[n], r[n])
  {
    if r[n] in s {
      var i :| 0 <= i < |s| && s[i] == r[n];
      if i < n {
        assert r[i] == r[..n][i] == s[..n][i] == s[i];
        assert Better(r[i], r[n]);
        BetterIsStrictTotalOrder(r[n], r[n], r[n]);
        assert false;
      }
    } else {
      assert s[n] in s && r[n] in r;
    }
  }

  /** There is one such answer, so nothing about the hash map's order can show in it. */
  lemma TopKIsUnique(r: seq<Merged>, s: seq<Merged>, all: set<Merged>, k: nat)
    requires IsTopK(r, all, k) && IsTopK(s, all, k)
    ensures r == s
  {
    SamePrefix(r, s, all, k, |r|);
    assert r[..|r|] == r && s[..|r|] == s;
  }

  function Take(s: seq<Merged>, k: nat): seq<Merged> {
    if k < |s| then s[..k] else s
  }

  ghost function Elements(s: seq<Merged>): set<Merged> {
    set x | x in s
  }

  lemma {:induction false} DistinctCount(s: seq<Merged>)
    requires DistinctIds(s)
    ensures |Elements(s)| == |s|
  {
    if s == [] {
      assert Elements(s) == {};
    } else {
      var front, x := s[..|s| - 1], s[|s| - 1];
      DistinctCount(front);
      assert s == front + [x];
      assert forall i :: 0 <= i < |front| ==> s[i] == front[i];
      assert Elements(s) == Elements(front) + {x};
    }
  }

  // Sorting and cutting gives the answer, in whatever order the candidates come.
  lemma SortAndCut(s: seq<Merged>, k: nat)
    requires DistinctIds(s)
    ensures IsTopK(Take(Sorted(s), k), Elements(s), k)
  {
    SortedIsRanked(s);
    DistinctCount(s);
    var all := Sorted(s);
    var r := Take(all, k);
    forall x, y | x in r && y in Elements(s) && y !in r ensures Better(x, y) {
      var i :| 0 <= i < |r| && r[i] == x;
      assert y in all;
      var j :| 0 <= j < |all| && all[j] == y;
      assert forall q :: 0 <= q < |r| ==> r[q] == all[q];
      assert Better(all[i], all[j]);
    }
  }

  // -------------------------------------------------------------------------
  // The query
  // -------------------------------------------------------------------------

  function Weighted(m: Merged, wv: real, wf: real): Merged {
    m.(score := wv * m.vectorScore + wf * m.ftsScore)
  }

  ghost function Finals(merged: Candidates, wv: real, wf: real): set<Merged> {
    set id | id in merged :: Weighted(merged[id], wv, wf)
  }

  ghost predicate AnswerFrom(r: seq<Merged>, vector: seq<Scored>, fts: seq<Scored>, k: nat, wv: real, wf: real,
                             vs: Scores, fs: Scores, merged: Candidates)
  {
    && Normalizes(vs, vector) && Normalizes(fs, fts)
    && Merges(merged, vector + fts, vs, fs)
    && IsTopK(r, Finals(merged, wv, wf), k)
  }

  // The best k of the weighted candidates.
  ghost predicate IsAnswer(r: seq<Merged>, vector: seq<Scored>, fts: seq<Scored>, k: nat, wv: real, wf: real) {
    exists vs, fs, merged :: AnswerFrom(r, vector, fts, k, wv, wf, vs, fs, merged)
  }

  predicate ValidWeights(wv: real, wf: real) {
    InUnit(wv) && InUnit(wf) && -EPSILON <= wv + wf - 1.0 <= EPSILON
  }

  method ValidateHybridWeights(wv: real, wf: real) returns (ok: bool)
    ensures ok <==> 0.0 <= wv <= 1.0 && 0.0 <= wf <= 1.0 && 0.999999 <= wv + wf <= 1.000001
    ensures ok <==> ValidWeights(wv, wf)
  {
    if !(0.0 <= wv <= 1.0) {
      return false;
    }
    if !(0.0 <= wf <= 1.0) {
      return false;
    }
    var sum := wv + wf;
    var distance := if sum - 1.0 < 0.0 then 1.0 - sum else sum - 1.0;
    if distance > EPSILON {
      return false;
    }
    return true;
  }

  // Every candidate of the map once, under its own id.
  ghost predicate Collects(s: seq<Merged>, merged: Candidates, ids: set<string>) {
    && DistinctIds(s)
    && (forall i :: 0 <= i < |s| ==>
          s[i].row.chunkId in ids && s[i].row.chunkId in merged && merged[s[i].row.chunkId] == s[i])
    && forall id :: id in ids && id in merged ==> merged[id] in s
  }

  // The hash map gives its values up in any order.
  method IntoValues(merged: Candidates) returns (ranked: seq<Merged>)
    requires forall id :: id in merged ==> merged[id].row.chunkId == id
    ensures Collects(ranked, merged, merged.Keys)
  {
    ranked := [];
    var rest := merged.Keys;
    while rest != {}
      invariant rest <= merged.Keys
      invariant Collects(ranked, merged, merged.Keys - rest)
    {
      var id :| id in rest;
      CollectOne(ranked, merged, merged.Keys - rest, id);
      ranked := ranked + [merged[id]];
      rest := rest - {id};
      assert merged.Keys - rest == merged.Keys - (rest + {id}) + {id};
    }
    assert merged.Keys - {} == merged.Keys;
  }

  lemma CollectOne(s: seq<Merged>, merged: Candidates, ids: set<string>, id: string)
    requires Collects(s, merged, ids) && id !in ids && id in merged && merged[id].row.chunkId == id
    ensures Collects(s + [merged[id]], merged, ids + {id})
  {
  }

  method SetScores(candidates: seq<Merged>, wv: real, wf: real) returns (ranked: seq<Merged>)
    ensures |ranked| == |candidates| && forall i :: 0 <= i < |ranked| ==> ranked[i] == Weighted(candidates[i], wv, wf)
  {
    ranked := candidates;
    for n := 0 to |ranked|
      invariant |ranked| == |candidates|
      invariant forall i :: 0 <= i < |ranked| ==>
                  ranked[i] == if i < n then Weighted(candidates[i], wv, wf) else candidates[i]
    {
      var c := ranked[n];
      ranked := ranked[n := c.(score := wv * c.vectorScore + wf * c.ftsScore)];
    }
  }

  lemma ElementsAreFinals(s: seq<Merged>, merged: Candidates, ranked: seq<Merged>, wv: real, wf: real)
    requires Collects(s, merged, merged.Keys)
    requires |ranked| == |s| && forall i :: 0 <= i < |ranked| ==> ranked[i] == Weighted(s[i], wv, wf)
    ensures DistinctIds(ranked) && Elements(ranked) == Finals(merged, wv, wf)
  {
    forall x | x in Finals(merged, wv, wf) ensures x in ranked {
      var id :| id in merged && Weighted(merged[id], wv, wf) == x;
      var i :| 0 <= i < |s| && s[i] == merged[id];
      assert ranked[i] == x;
    }
    forall x | x in ranked ensures x in Finals(merged, wv, wf) {
      var i :| 0 <= i < |ranked| && ranked[i] == x;
      assert x == Weighted(merged[s[i].row.chunkId], wv, wf);
    }
  }

  // Rows already fetched are parameters.
  method ExecuteHybridQuery(query: string, topK: Option<nat>, vectorWeight: Option<real>, ftsWeight: Option<real>,
                            vector: seq<Scored>, fts: seq<Scored>)
    returns (r: Result<seq<Merged>>)
    ensures var k := if topK.Some? then topK.value else 8;
            var wv := if vectorWeight.Some? then vectorWeight.value else 0.7;
            var wf := if ftsWeight.Some? then ftsWeight.value else 0.3;
            && (r.Ok? <==> Trim(query) != "" && k != 0 && ValidWeights(wv, wf) && 4 * k <= 0x7FFF_FFFF_FFFF_FFFF)
            && (r.Ok? ==> IsAnswer(r.value, vector, fts, k, wv, wf))
  {
    if Trim(query) == "" {
      return Err;
    }
    var k := if topK.Some? then topK.value else DEFAULT_TOP_K;
    if k == 0 {
      return Err;
    }
    var wv := if vectorWeight.Some? then vectorWeight.value else DEFAULT_VECTOR_WEIGHT;
    var wf := if ftsWeight.Some? then ftsWeight.value else DEFAULT_FTS_WEIGHT;
    var ok := ValidateHybridWeights(wv, wf);
    if !ok || k * CANDIDATE_MULTIPLIER > I64_MAX {
      return Err;
    }
    var results := RankCandidates(vector, fts, k, wv, wf);
    return Ok(results);
  }

  method RankCandidates(vector: seq<Scored>, fts: seq<Scored>, k: nat, wv: real, wf: real)
    returns (results: seq<Merged>)
    ensures IsAnswer(results, vector, fts, k, wv, wf)
  {
    var vs := NormalizeScores(vector);
    var fs := NormalizeScores(fts);
    var merged := MergeVector(vector, vs);
    merged := MergeFts(merged, vector, vs, fts, fs);
    MergedByOwnId(merged, vector + fts, vs, fs);
    var candidates := IntoValues(merged);
    var ranked := SetScores(candidates, wv, wf);
    ElementsAreFinals(candidates, merged, ranked, wv, wf);
    SortAndCut(ranked, k);
    results := Take(Sorted(ranked), k);
    assert AnswerFrom(results, vector, fts, k, wv, wf, vs, fs, merged);
  }

  lemma MergedByOwnId(merged: Candidates, cs: seq<Scored>, vs: Scores, fs: Scores)
    requires Merges(merged, cs, vs, fs)
    ensures forall id :: id in merged ==> merged[id].row.chunkId == id
  {
    forall id | id in merged ensures merged[id].row.chunkId == id {
      assert MergesAt(merged, cs, vs, fs, id);
      RowOfHasId(cs, id);
    }
  }

  // -------------------------------------------------------------------------
  // The answer
  // -------------------------------------------------------------------------

  lemma NormalizationIsUnique(a: Scores, b: Scores, cs: seq<Scored>)
    requires Normalizes(a, cs) && Normalizes(b, cs)
    ensures a == b
  {
    forall id ensures id in a <==> id in b {
      ScoredAreListed(a, cs, id);
      ScoredAreListed(b, cs, id);
    }
    forall id | id in a ensures a[id] == b[id] {
      var i :| LastAt(cs, id, i);
    }
  }

  lemma MergeIsUnique(a: Candidates, b: Candidates, cs: seq<Scored>, vs: Scores, fs: Scores)
    requires Merges(a, cs, vs, fs) && Merges(b, cs, vs, fs)
    ensures a == b
  {
    forall id ensures (id in a <==> id in b) && (id in a ==> a[id] == b[id]) {
      assert MergesAt(a, cs, vs, fs, id) && MergesAt(b, cs, vs, fs, id);
    }
  }

  /** A query over given rows has one answer, whatever order the hash maps are walked in. */
  lemma AnswerIsUnique(r: seq<Merged>, s: seq<Merged>, vector: seq<Scored>, fts: seq<Scored>, k: nat,
                       wv: real, wf: real)
    requires IsAnswer(r, vector, fts, k, wv, wf) && IsAnswer(s, vector, fts, k, wv, wf)
    ensures r == s
  {
    var vs, fs, merged :| AnswerFrom(r, vector, fts, k, wv, wf, vs, fs, merged);
    var vs2, fs2, merged2 :| AnswerFrom(s, vector, fts, k, wv, wf, vs2, fs2, merged2);
    NormalizationIsUnique(vs, vs2, vector);
    NormalizationIsUnique(fs, fs2, fts);
    MergeIsUnique(merged, merged2, vector + fts, vs, fs);
    TopKIsUnique(r, s, Finals(merged, wv, wf), k);
  }

  lemma Share(w: real, x: real) returns (a: real)
    requires InUnit(w) && InUnit(x)
    ensures a == w * x && 0.0 <= a <= w
  {
    a := w * x;
    assert w - a == w * (1.0 - x);
    ProductIsNotNegative(w, x);
    ProductIsNotNegative(w, 1.0 - x);
  }

  lemma ProductIsNotNegative(w: real, x: real)
    requires 0.0 <= w && 0.0 <= x
    ensures 0.0 <= w * x
  {
  }

  lemma ScoreInUnit(scores: Scores, cs: seq<Scored>, id: string)
    requires Normalizes(scores, cs)
    ensures InUnit(ScoreIn(scores, id))
  {
    if id in scores {
      NormalizedInUnit(scores, cs, id);
    }
  }

  lemma MergedScoresInUnit(merged: Candidates, vector: seq<Scored>, fts: seq<Scored>,
                           vs: Scores, fs: Scores, id: string)
    requires Normalizes(vs, vector) && Normalizes(fs, fts) && Merges(merged, vector + fts, vs, fs) && id in merged
    ensures InUnit(merged[id].vectorScore) && InUnit(merged[id].ftsScore)
  {
    assert MergesAt(merged, vector + fts, vs, fs, id);
    ScoreInUnit(vs, vector, merged[id].row.chunkId);
    ScoreInUnit(fs, fts, merged[id].row.chunkId);
  }

  lemma WeightedIsBounded(m: Merged, wv: real, wf: real)
    requires ValidWeights(wv, wf) && InUnit(m.vectorScore) && InUnit(m.ftsScore)
    ensures 0.0 <= Weighted(m, wv, wf).score <= 1.0 + EPSILON
  {
    var a := Share(wv, m.vectorScore);
    var b := Share(wf, m.ftsScore);
    assert Weighted(m, wv, wf).score == a + b;
  }

  /** Scores: both parts lie in [0, 1], the total in [0, 1 + epsilon]. */
  lemma AnswerScoresAreBounded(r: seq<Merged>, vector: seq<Scored>, fts: seq<Scored>, k: nat,
                               wv: real, wf: real, x: Merged)
    requires IsAnswer(r, vector, fts, k, wv, wf) && ValidWeights(wv, wf) && x in r
    ensures InUnit(x.vectorScore) && InUnit(x.ftsScore)
    ensures 0.0 <= x.score <= 1.000001
  {
    var vs, fs, merged :| AnswerFrom(r, vector, fts, k, wv, wf, vs, fs, merged);
    assert x in Finals(merged, wv, wf);
    var id :| id in merged && x == Weighted(merged[id], wv, wf);
    MergedScoresInUnit(merged, vector, fts, vs, fs, id);
    WeightedIsBounded(merged[id], wv, wf);
  }
}
