/** The rows of a table keyed by sequence, as a query sorted by sequence returns them. */
module EventRows {
  import opened Common

  datatype Row<+T> = Row(sequence: nat, payload: T)

  // ORDER BY sequence ASC
  function Ascending<T>(rows: map<nat, T>): seq<Row<T>>
    decreases |rows|
  {
    if rows == map[] then []
    else
      var n := Largest(rows.Keys);
      RemoveShrinks(rows, n);
      Ascending(rows - {n}) + [Row(n, rows[n])]
  }

  lemma RemoveShrinks<T>(rows: map<nat, T>, n: nat)
    requires n in rows
    ensures |rows - {n}| < |rows|
  {
    assert (rows - {n}).Keys == rows.Keys - {n};
    assert |rows.Keys - {n}| == |rows.Keys| - 1;
  }

  function Reversed<T>(s: seq<T>): (r: seq<T>)
    ensures |r| == |s| && forall i :: 0 <= i < |s| ==> r[i] == s[|s| - 1 - i]
  {
    if s == [] then [] else [s[|s| - 1]] + Reversed(s[..|s| - 1])
  }

  // ORDER BY sequence DESC LIMIT n
  function Newest<T>(rows: map<nat, T>, n: nat): seq<Row<T>> {
    var all := Reversed(Ascending(rows));
    if n <= |all| then all[..n] else all
  }

  function LastOf<T>(s: seq<T>, n: nat): seq<T> {
    if n <= |s| then s[|s| - n..] else s
  }

  ghost predicate Has<T>(s: seq<Row<T>>, n: nat) {
    exists i :: 0 <= i < |s| && s[i].sequence == n
  }

  ghost predicate FromTable<T>(s: seq<Row<T>>, rows: map<nat, T>) {
    forall i :: 0 <= i < |s| ==> s[i].sequence in rows && s[i].payload == rows[s[i].sequence]
  }

  predicate Climbs<T>(s: seq<Row<T>>) {
    forall i, j :: 0 <= i < j < |s| ==> s[i].sequence < s[j].sequence
  }

  ghost predicate Lists<T(!new)>(s: seq<Row<T>>, rows: map<nat, T>) {
    FromTable(s, rows) && Climbs(s) && forall n :: n in rows ==> Has(s, n)
  }

  lemma OneMoreHas<T(!new)>(front: seq<Row<T>>, row: Row<T>, n: nat)
    requires Has(front, n) || row.sequence == n
    ensures Has(front + [row], n)
  {
    if Has(front, n) {
      var i :| 0 <= i < |front| && front[i].sequence == n;
      assert (front + [row])[i].sequence == n;
    } else {
      assert (front + [row])[|front|].sequence == n;
    }
  }

  lemma OneMoreClimbs<T(!new)>(front: seq<Row<T>>, row: Row<T>)
    requires Climbs(front) && forall i :: 0 <= i < |front| ==> front[i].sequence < row.sequence
    ensures Climbs(front + [row])
  {
  }

  lemma OneMoreFromTable<T(!new)>(front: seq<Row<T>>, rest: map<nat, T>, rows: map<nat, T>, n: nat)
    requires FromTable(front, rest) && n in rows && rest == rows - {n}
    ensures FromTable(front + [Row(n, rows[n])], rows)
    ensures forall i :: 0 <= i < |front| ==> front[i].sequence in rows && front[i].sequence != n
  {
  }

  // All rows, each once, in ascending order.
  lemma {:induction false} AscendingLists<T(!new)>(rows: map<nat, T>)
    ensures Lists(Ascending(rows), rows)
    decreases |rows|
  {
    if rows != map[] {
      var n := Largest(rows.Keys);
      var rest, row := rows - {n}, Row(n, rows[n]);
      RemoveShrinks(rows, n);
      AscendingLists(rest);
      var front := Ascending(rest);
      assert Ascending(rows) == front + [row];
      OneMoreFromTable(front, rest, rows, n);
      OneMoreClimbs(front, row);
      forall m | m in rows ensures Has(front + [row], m) {
        assert m in rest || m == n;
        OneMoreHas(front, row, m);
      }
    }
  }

  lemma NewestReversed<T>(rows: map<nat, T>, n: nat)
    ensures Reversed(Newest(rows, n)) == LastOf(Ascending(rows), n)
  {
    var all := Ascending(rows);
    var a, b := Reversed(Newest(rows, n)), LastOf(all, n);
    assert |a| == |b|;
    forall i | 0 <= i < |a| ensures a[i] == b[i] {
    }
  }

  // Rows 1..k, as a sequence.
  ghost predicate Numbered<T>(rows: map<nat, T>, s: seq<T>) {
    && (forall n :: n in rows <==> 1 <= n <= |s|)
    && forall n :: n in rows ==> rows[n] == s[n - 1]
  }

  lemma {:induction false} NumberedAscending<T>(rows: map<nat, T>, s: seq<T>)
    requires Numbered(rows, s)
    ensures Ascending(rows) == seq(|s|, i requires 0 <= i < |s| => Row(i + 1, s[i]))
    decreases |s|
  {
    if s == [] {
      assert rows.Keys == {};
    } else {
      var k := |s|;
      assert k in rows && rows.Keys != {};
      assert Largest(rows.Keys) == k;
      NumberedAscending(rows - {k}, s[..k - 1]);
    }
  }
}
