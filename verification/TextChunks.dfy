/** Cutting message text into overlapping windows for the search index. */
module TextChunks {
  import opened Common

  const MAX_CHARS: nat := 640
  const OVERLAP: nat := 96

  // The White_Space property of Unicode.
  predicate IsSpace(c: char) {
    var n := c as int;
    || 0x09 <= n <= 0x0D || n == 0x20 || n == 0x85 || n == 0xA0 || n == 0x1680
    || 0x2000 <= n <= 0x200A || n == 0x2028 || n == 0x2029 || n == 0x202F || n == 0x205F || n == 0x3000
  }

  function TrimStart(s: string): string {
    if s != "" && IsSpace(s[0]) then TrimStart(s[1..]) else s
  }

  function TrimEnd(s: string): string {
    if s != "" && IsSpace(s[|s| - 1]) then TrimEnd(s[..|s| - 1]) else s
  }

  function Trim(s: string): string {
    TrimEnd(TrimStart(s))
  }

  predicate SpaceFree(s: string) {
    forall i :: 0 <= i < |s| ==> !IsSpace(s[i])
  }

  // Length of the word at the front.
  function WordLen(s: string): (n: nat)
    ensures n <= |s| && SpaceFree(s[..n]) && (n < |s| ==> IsSpace(s[n]))
  {
    if s == "" || IsSpace(s[0]) then 0 else 1 + WordLen(s[1..])
  }

  function Words(s: string): seq<string>
    decreases |s|
  {
    if s == "" then []
    else if IsSpace(s[0]) then Words(s[1..])
    else [s[..WordLen(s)]] + Words(s[WordLen(s)..])
  }

  function JoinWords(ws: seq<string>): string {
    if ws == [] then ""
    else if |ws| == 1 then ws[0]
    else ws[0] + " " + JoinWords(ws[1..])
  }

  function Normalize(s: string): string {
    JoinWords(Words(s))
  }

  // -------------------------------------------------------------------------
  // Windows
  // -------------------------------------------------------------------------

  function WindowEnd(s: string, start: nat): nat {
    if start + MAX_CHARS <= |s| then start + MAX_CHARS else |s|
  }

  // The raw windows from `start` on.
  function Windows(s: string, start: nat): seq<string>
    requires start <= |s|
    decreases |s| - start
  {
    var end := WindowEnd(s, start);
    if end == |s| then [s[start..]]
    else [s[start..end]] + Windows(s, end - OVERLAP)
  }

  // A window in its indexed form, unless that is empty.
  function Kept(w: string): seq<string> {
    if Normalize(w) == "" then [] else [Normalize(w)]
  }

  function NonEmptyNormalized(ws: seq<string>): seq<string> {
    if ws == [] then [] else Kept(ws[0]) + NonEmptyNormalized(ws[1..])
  }

  // One more window is done.
  lemma WindowDone(s: string, start: nat)
    requires start < |s|
    ensures
      var end := WindowEnd(s, start);
      NonEmptyNormalized(Windows(s, start)) ==
        Kept(s[start..end]) + (if end == |s| then [] else NonEmptyNormalized(Windows(s, end - OVERLAP)))
  {
    var end := WindowEnd(s, start);
    if end == |s| {
      assert s[start..end] == s[start..];
      assert Windows(s, start)[1..] == [];
    } else {
      assert Windows(s, start)[1..] == Windows(s, end - OVERLAP);
    }
  }

  // The chunks of the whole text are those collected and those of the windows still ahead.
  predicate Ahead(s: string, start: nat, chunks: seq<string>)
    requires start <= |s|
  {
    NonEmptyNormalized(Windows(s, 0)) == chunks + NonEmptyNormalized(Windows(s, start))
  }

  lemma NextWindow(s: string, start: nat, chunks: seq<string>)
    requires start < |s| && Ahead(s, start, chunks)
    ensures
      var end := WindowEnd(s, start);
      if end == |s| then NonEmptyNormalized(Windows(s, 0)) == chunks + Kept(s[start..end])
      else Ahead(s, end - OVERLAP, chunks + Kept(s[start..end]))
  {
    WindowDone(s, start);
    var end := WindowEnd(s, start);
    var ahead := if end == |s| then [] else NonEmptyNormalized(Windows(s, end - OVERLAP));
    Reassociate(chunks, Kept(s[start..end]), ahead);
  }

  // What a text is indexed under.
  function IndexChunks(text: string): seq<string> {
    if Trim(text) == "" then [] else NonEmptyNormalized(Windows(Trim(text), 0))
  }

  // The guard `start >= end` of the original never holds, as the overlap is positive.
  method SplitTextIntoChunks(text: string) returns (chunks: seq<string>)
    ensures chunks == IndexChunks(text)
  {
    var chars := Trim(text);
    if chars == "" {
      return [];
    }
    chunks := [];
    var start := 0;
    while start < |chars|
      invariant start < |chars|
      invariant Ahead(chars, start, chunks)
      decreases |chars| - start
    {
      NextWindow(chars, start, chunks);
      ghost var done := chunks;
      var end := if start + MAX_CHARS <= |chars| then start + MAX_CHARS else |chars|;
      var normalized := Normalize(chars[start..end]);
      if normalized != "" {
        chunks := chunks + [normalized];
      }
      assert end == WindowEnd(chars, start) && chunks == done + Kept(chars[start..end]);
      if end == |chars| {
        break;
      }
      start := end - OVERLAP;
    }
  }

  // The text again, from the windows without the part shared with their predecessor.
  function Stitch(ws: seq<string>): string {
    if ws == [] then ""
    else if |ws| == 1 then ws[0]
    else ws[0] + Unshared(ws[1..])
  }

  function Unshared(ws: seq<string>): string {
    if ws == [] then "" else (if |ws[0]| >= OVERLAP then ws[0][OVERLAP..] else "") + Unshared(ws[1..])
  }

  lemma {:induction false} UnsharedWindows(s: string, start: nat)
    requires start + OVERLAP < |s|
    ensures Unshared(Windows(s, start)) == s[start + OVERLAP..]
    decreases |s| - start
  {
    var end := WindowEnd(s, start);
    var ws := Windows(s, start);
    if end < |s| {
      UnsharedWindows(s, end - OVERLAP);
      assert ws[1..] == Windows(s, end - OVERLAP);
      assert s[start..end][OVERLAP..] + s[end..] == s[start + OVERLAP..];
    } else {
      assert s[start..][OVERLAP..] == s[start + OVERLAP..];
      assert ws[1..] == [];
    }
  }

  lemma WindowsRebuildText(s: string)
    ensures Stitch(Windows(s, 0)) == s
  {
    var end := WindowEnd(s, 0);
    if end < |s| {
      UnsharedWindows(s, end - OVERLAP);
      assert Windows(s, 0)[1..] == Windows(s, end - OVERLAP);
      assert s[0..end] + s[end..] == s;
    }
  }

  // Window `k` starts at 544 * k.
  lemma {:induction false} WindowAt(s: string, start: nat, k: nat)
    requires start <= |s| && k < |Windows(s, start)|
    ensures
      var a := start + k * (MAX_CHARS - OVERLAP);
      && a <= |s| && Windows(s, start)[k] == s[a..WindowEnd(s, a)]
      && (k + 1 < |Windows(s, start)| <==> a + MAX_CHARS < |s|)
    decreases k
  {
    var end := WindowEnd(s, start);
    if end < |s| {
      assert Windows(s, start)[1..] == Windows(s, end - OVERLAP);
      if k > 0 {
        WindowAt(s, end - OVERLAP, k - 1);
      }
    }
  }

  // Every window fits, all but the last are full, and neighbours share exactly 96 characters.
  lemma WindowsOverlap(s: string, k: nat)
    requires k < |Windows(s, 0)|
    ensures
      var ws := Windows(s, 0);
      && |ws[k]| <= 640
      && (k + 1 < |ws| ==>
            && |ws[k]| == 640 && |ws[k + 1]| > 96
            && ws[k][544..] == ws[k + 1][..96])
  {
    WindowAt(s, 0, k);
    if k + 1 < |Windows(s, 0)| {
      WindowAt(s, 0, k + 1);
      var a := k * (MAX_CHARS - OVERLAP);
      var b := a + MAX_CHARS - OVERLAP;
      assert WindowEnd(s, a) == a + MAX_CHARS;
      CutOfCut(s, a, a + MAX_CHARS, MAX_CHARS - OVERLAP, MAX_CHARS);
      CutOfCut(s, b, WindowEnd(s, b), 0, OVERLAP);
    }
  }

  // -------------------------------------------------------------------------
  // Short passages are found whole
  // -------------------------------------------------------------------------

  // Window `k` contains the passage [i, j).
  predicate Inside(s: string, k: nat, i: nat, j: nat) {
    k < |Windows(s, 0)| && k * (MAX_CHARS - OVERLAP) <= i && j <= WindowEnd(s, k * (MAX_CHARS - OVERLAP))
  }

  lemma {:induction false} LastWindowEndsText(s: string, start: nat)
    requires start <= |s|
    ensures |Windows(s, start)| > 0
    ensures
      var a := start + (|Windows(s, start)| - 1) * (MAX_CHARS - OVERLAP);
      a <= |s| && a + MAX_CHARS >= |s|
    decreases |s| - start
  {
    var end := WindowEnd(s, start);
    if end < |s| {
      LastWindowEndsText(s, end - OVERLAP);
    }
  }

  // A passage of at most 97 characters lies inside one window.
  lemma ShortPassageInsideWindow(s: string, i: nat, j: nat) returns (k: nat)
    requires i <= j <= |s| && j - i <= 97
    ensures Inside(s, k, i, j)
  {
    LastWindowEndsText(s, 0);
    var stride := MAX_CHARS - OVERLAP;
    var last := |Windows(s, 0)| - 1;
    k := i / stride;
    if k > last {
      k := last;
    }
    assert k * stride <= i;
  }

  // The bound is sharp: in a longer text a passage of 98 characters is cut by every window.
  lemma LongerPassageCanBeCut(s: string, k: nat)
    requires |s| > 640
    ensures !Inside(s, k, 543, 641)
  {
  }

  // -------------------------------------------------------------------------
  // Normalised text
  // -------------------------------------------------------------------------

  // Words separated by single spaces; a space may also stand at either end.
  predicate SingleSpaced(s: string) {
    forall i :: 0 <= i < |s| ==>
      (IsSpace(s[i]) ==> s[i] == ' ') && (IsSpace(s[i]) && i + 1 < |s| ==> !IsSpace(s[i + 1]))
  }

  predicate Normal(s: string) {
    SingleSpaced(s) && (s != "" ==> !IsSpace(s[0]) && !IsSpace(s[|s| - 1]))
  }

  predicate GoodWords(ws: seq<string>) {
    forall i :: 0 <= i < |ws| ==> ws[i] != "" && SpaceFree(ws[i])
  }

  lemma {:induction false} WordsAreGood(s: string)
    ensures GoodWords(Words(s))
    decreases |s|
  {
    if s != "" {
      if IsSpace(s[0]) {
        WordsAreGood(s[1..]);
      } else {
        WordsAreGood(s[WordLen(s)..]);
      }
    }
  }

  lemma {:induction false} JoinIsNormal(ws: seq<string>)
    requires GoodWords(ws)
    ensures Normal(JoinWords(ws)) && (ws != [] ==> JoinWords(ws) != "")
  {
    if |ws| > 1 {
      JoinIsNormal(ws[1..]);
      var head, tail := ws[0], JoinWords(ws[1..]);
      var s := head + " " + tail;
      assert forall i :: 0 <= i < |head| ==> s[i] == head[i];
      assert s[|head|] == ' ';
      assert forall i :: |head| < i < |s| ==> s[i] == tail[i - |head| - 1];
    }
  }

  lemma NormalizeIsNormal(s: string)
    ensures Normal(Normalize(s))
  {
    WordsAreGood(s);
    JoinIsNormal(Words(s));
  }

  // The first word of a normal text and what follows the space behind it.
  lemma FirstWord(s: string)
    requires Normal(s) && WordLen(s) < |s|
    ensures
      var n := WordLen(s);
      && n + 1 < |s| && Normal(s[n + 1..]) && s == s[..n] + " " + s[n + 1..]
      && Words(s) == [s[..n]] + Words(s[n + 1..]) && Words(s[n + 1..]) != []
  {
    var n := WordLen(s);
    var tail := s[n + 1..];
    TailIsNormal(s, n);
    assert s[n..][0] == s[n] && s[n..][1..] == tail;
    assert Words(s[n..]) == Words(tail);
  }

  lemma TailIsNormal(s: string, n: nat)
    requires Normal(s) && n < |s| && IsSpace(s[n])
    ensures n + 1 < |s| && Normal(s[n + 1..]) && !IsSpace(s[n + 1]) && s == s[..n] + " " + s[n + 1..]
  {
    var tail := s[n + 1..];
    assert forall i :: 0 <= i < |tail| ==> tail[i] == s[n + 1 + i];
  }

  lemma {:induction false} NormalizeNormal(s: string)
    requires Normal(s)
    ensures Normalize(s) == s
    decreases |s|
  {
    var n := WordLen(s);
    if n < |s| {
      FirstWord(s);
      NormalizeNormal(s[n + 1..]);
      assert Words(s)[1..] == Words(s[n + 1..]);
    } else if s != "" {
      assert s[..n] == s && s[n..] == "";
      assert Words(s) == [s] + Words("");
      assert Words(s) == [s];
    }
  }

  lemma {:induction false} TrailingSpaceIsIgnored(s: string)
    requires s != "" && IsSpace(s[|s| - 1])
    ensures Words(s) == Words(s[..|s| - 1])
    decreases |s|
  {
    var t := s[..|s| - 1];
    if t != "" {
      if IsSpace(s[0]) {
        assert s[1..][..|s| - 2] == t[1..];
        TrailingSpaceIsIgnored(s[1..]);
      } else {
        var n := WordLen(s);
        SameWordLen(s);
        assert s[..n] == t[..n];
        assert s[n..][..|s| - n - 1] == t[n..];
        TrailingSpaceIsIgnored(s[n..]);
      }
    }
  }

  lemma {:induction false} SameWordLen(s: string)
    requires s != "" && IsSpace(s[|s| - 1])
    ensures WordLen(s) == WordLen(s[..|s| - 1]) < |s|
    decreases |s|
  {
    if |s| > 1 && !IsSpace(s[0]) {
      SameWordLen(s[1..]);
      assert s[1..][..|s| - 2] == s[..|s| - 1][1..];
    }
  }

  // A window of normalised text without the space at either end.
  function Core(w: string): string {
    var a := if w != "" && IsSpace(w[0]) then 1 else 0;
    var b := if |w| > a && IsSpace(w[|w| - 1]) then |w| - 1 else |w|;
    w[a..b]
  }

  lemma WindowNormalizesToCore(w: string)
    requires SingleSpaced(w)
    ensures Normalize(w) == Core(w)
  {
    if w != "" && IsSpace(w[0]) {
      var w1 := w[1..];
      assert forall i :: 0 <= i < |w1| ==> w1[i] == w[i + 1];
      CoreOfUnspaced(w1);
    } else {
      CoreOfUnspaced(w);
    }
  }

  lemma CoreOfUnspaced(w: string)
    requires SingleSpaced(w) && (w != "" ==> !IsSpace(w[0]))
    ensures Normalize(w) == if w != "" && IsSpace(w[|w| - 1]) then w[..|w| - 1] else w
  {
    if w != "" && IsSpace(w[|w| - 1]) {
      var t := w[..|w| - 1];
      TrailingSpaceIsIgnored(w);
      assert t != "" ==> t[|t| - 1] == w[|w| - 2];
      NormalizeNormal(t);
    } else {
      NormalizeNormal(w);
    }
  }

  // `p` occurs in `s`.
  predicate OccursAt(p: string, s: string, a: nat) {
    a + |p| <= |s| && s[a..a + |p|] == p
  }

  ghost predicate Occurs(p: string, s: string) {
    exists a: nat :: OccursAt(p, s, a)
  }

  lemma CutOfCut(s: string, a: nat, b: nat, c: nat, d: nat)
    requires a <= b <= |s| && c <= d <= b - a
    ensures s[a..b][c..d] == s[a + c..a + d]
  {
    var t := s[a..b];
    assert forall x :: 0 <= x < d - c ==> t[c..d][x] == t[c + x] == s[a + c + x] == s[a + c..a + d][x];
  }

  lemma CoreKeepsPassage(w: string, a: nat, b: nat)
    requires a < b <= |w| && !IsSpace(w[a]) && !IsSpace(w[b - 1])
    ensures Occurs(w[a..b], Core(w))
  {
    var lo := if IsSpace(w[0]) then 1 else 0;
    var hi := if |w| > lo && IsSpace(w[|w| - 1]) then |w| - 1 else |w|;
    var c := w[lo..hi];
    assert lo <= a && b <= hi;
    CutOfCut(w, lo, hi, a - lo, b - lo);
    assert OccursAt(w[a..b], c, a - lo);
  }

  lemma WindowIsSingleSpaced(text: string, a: nat, b: nat)
    requires SingleSpaced(text) && a <= b <= |text|
    ensures SingleSpaced(text[a..b])
  {
    assert forall x :: 0 <= x < b - a ==> text[a..b][x] == text[a + x];
  }

  lemma {:induction false} KeptIsListed(ws: seq<string>, k: nat)
    requires k < |ws| && Normalize(ws[k]) != ""
    ensures Normalize(ws[k]) in NonEmptyNormalized(ws)
  {
    if k > 0 {
      KeptIsListed(ws[1..], k - 1);
    }
  }

  // Every passage of up to 97 characters of an indexed text, from a non-space to a non-space,
  // occurs in one of the chunks the text is indexed under.
  lemma PassagesSurvive(text: string, i: nat, j: nat) returns (chunk: string)
    requires text == Normalize(text)
    requires i < j <= |text| && j - i <= 97
    requires !IsSpace(text[i]) && !IsSpace(text[j - 1])
    ensures chunk in IndexChunks(text) && Occurs(text[i..j], chunk)
  {
    NormalizeIsNormal(text);
    assert Trim(text) == text;
    var k := ShortPassageInsideWindow(text, i, j);
    WindowAt(text, 0, k);
    var a := k * (MAX_CHARS - OVERLAP);
    var b := WindowEnd(text, a);
    chunk := Normalize(text[a..b]);
    WindowIsSingleSpaced(text, a, b);
    PassageInCut(text, a, b, i, j);
    KeptIsListed(Windows(text, 0), k);
  }

  lemma PassageInCut(text: string, a: nat, b: nat, i: nat, j: nat)
    requires a <= i < j <= b <= |text| && SingleSpaced(text[a..b])
    requires !IsSpace(text[i]) && !IsSpace(text[j - 1])
    ensures Occurs(text[i..j], Normalize(text[a..b])) && Normalize(text[a..b]) != ""
  {
    var w := text[a..b];
    assert w[i - a] == text[i] && w[j - 1 - a] == text[j - 1];
    CutOfCut(text, a, b, i - a, j - a);
    WindowNormalizesToCore(w);
    CoreKeepsPassage(w, i - a, j - a);
  }

  // -------------------------------------------------------------------------
  // Normalizing any text
  // -------------------------------------------------------------------------

  predicate AllSpace(s: string) {
    forall i :: 0 <= i < |s| ==> IsSpace(s[i])
  }

  // The text is the words, which have no space in them, with space between and around.
  ghost predicate Spaces(s: string, ws: seq<string>)
    decreases |ws|
  {
    if ws == [] then AllSpace(s)
    else
      && ws[0] != "" && SpaceFree(ws[0])
      && exists a: string, c: string ::
           && s == a + ws[0] + c && AllSpace(a) && (c != "" ==> IsSpace(c[0]))
           && Spaces(c, ws[1..])
  }

  lemma SpacesFront(a: string, w: string, c: string, ws: seq<string>)
    requires w != "" && SpaceFree(w) && AllSpace(a) && (c != "" ==> IsSpace(c[0])) && Spaces(c, ws)
    ensures Spaces(a + w + c, [w] + ws)
  {
    assert ([w] + ws)[1..] == ws;
  }

  // Space in front does not matter.
  lemma SpacesMore(x: char, s: string, ws: seq<string>)
    requires IsSpace(x) && Spaces(s, ws)
    ensures Spaces([x] + s, ws)
  {
    if ws != [] {
      var a, c :| s == a + ws[0] + c && AllSpace(a) && (c != "" ==> IsSpace(c[0])) && Spaces(c, ws[1..]);
      assert [x] + s == [x] + a + ws[0] + c;
      SpacesFront([x] + a, ws[0], c, ws[1..]);
      assert [ws[0]] + ws[1..] == ws;
    }
  }

  lemma {:induction false} WordsSpace(s: string)
    ensures Spaces(s, Words(s))
    decreases |s|
  {
    if s != "" {
      if IsSpace(s[0]) {
        WordsSpace(s[1..]);
        SpacesMore(s[0], s[1..], Words(s[1..]));
        assert [s[0]] + s[1..] == s;
      } else {
        var n := WordLen(s);
        WordsSpace(s[n..]);
        assert s == "" + s[..n] + s[n..];
        SpacesFront("", s[..n], s[n..], Words(s[n..]));
      }
    }
  }

  lemma {:induction false} JoinedSpace(ws: seq<string>)
    requires forall i :: 0 <= i < |ws| ==> ws[i] != "" && SpaceFree(ws[i])
    ensures Spaces(JoinWords(ws), ws)
    decreases |ws|
  {
    if |ws| == 1 {
      assert ws == [ws[0]] + [] && ws[0] == "" + ws[0] + "";
      SpacesFront("", ws[0], "", []);
    } else if |ws| > 1 {
      var rest := JoinWords(ws[1..]);
      JoinedSpace(ws[1..]);
      SpacesMore(' ', rest, ws[1..]);
      assert JoinWords(ws) == "" + ws[0] + ([' '] + rest);
      SpacesFront("", ws[0], [' '] + rest, ws[1..]);
      assert [ws[0]] + ws[1..] == ws;
    }
  }

  // Normalizing any text keeps its words in order, with single spaces between them and nothing else.
  lemma NormalizeKeepsWords(s: string)
    ensures Spaces(s, Words(s)) && Spaces(Normalize(s), Words(s)) && Normal(Normalize(s))
  {
    WordsSpace(s);
    WordsAreGood(s);
    JoinedSpace(Words(s));
    NormalizeIsNormal(s);
  }

  // Among the characters of ASCII, tab to carriage return and the space.
  lemma AsciiSpaces(c: char)
    requires c as int < 128
    ensures IsSpace(c) <==> c in [9 as char, 10 as char, 11 as char, 12 as char, 13 as char, ' ']
  {
  }

  // -------------------------------------------------------------------------
  // The chunks of any text
  // -------------------------------------------------------------------------

  lemma {:induction false} NormalizeShortens(s: string)
    ensures |Normalize(s)| <= |s|
    decreases |s|
  {
    if s != "" {
      if IsSpace(s[0]) {
        NormalizeShortens(s[1..]);
      } else {
        var n := WordLen(s);
        var rest := s[n..];
        assert Words(s) == [s[..n]] + Words(rest);
        assert ([s[..n]] + Words(rest))[1..] == Words(rest);
        if rest != "" {
          assert Words(rest) == Words(rest[1..]);
          NormalizeShortens(rest[1..]);
        }
      }
    }
  }

  lemma {:induction false} KeptAreNormal(ws: seq<string>, c: string)
    requires (forall i :: 0 <= i < |ws| ==> |ws[i]| <= 640) && c in NonEmptyNormalized(ws)
    ensures c != "" && Normal(c) && |c| <= 640
  {
    if c in Kept(ws[0]) {
      NormalizeIsNormal(ws[0]);
      NormalizeShortens(ws[0]);
    } else {
      KeptAreNormal(ws[1..], c);
    }
  }

  // Every chunk of every text is normalized, not empty and within the limit.
  lemma ChunksAreNormal(text: string, c: string)
    requires c in IndexChunks(text)
    ensures c != "" && Normal(c) && |c| <= 640
  {
    var ws := Windows(Trim(text), 0);
    forall k | 0 <= k < |ws| ensures |ws[k]| <= 640 {
      WindowsOverlap(Trim(text), k);
    }
    KeptAreNormal(ws, c);
  }

  lemma {:induction false} TrimStartOver(a: string, t: string)
    requires AllSpace(a)
    ensures TrimStart(a + t) == TrimStart(t)
  {
    if a == "" {
      assert a + t == t;
    } else {
      assert (a + t)[0] == a[0] && (a + t)[1..] == a[1..] + t;
      TrimStartOver(a[1..], t);
    }
  }

  lemma {:induction false} TrimEndOver(t: string, b: string)
    requires AllSpace(b)
    ensures TrimEnd(t + b) == TrimEnd(t)
  {
    if b == "" {
      assert t + b == t;
    } else {
      var n := |b| - 1;
      assert (t + b)[|t| + n] == b[n] && (t + b)[..|t| + n] == t + b[..n];
      TrimEndOver(t, b[..n]);
    }
  }

  lemma {:induction false} TrimStartBefore(s: string, b: string)
    requires AllSpace(b)
    ensures TrimStart(s + b) == if TrimStart(s) == "" then "" else TrimStart(s) + b
  {
    if s == "" {
      TrimStartOver(b, "");
      assert s + b == b && b + "" == b;
    } else {
      assert (s + b)[0] == s[0] && (s + b)[1..] == s[1..] + b;
      if IsSpace(s[0]) {
        TrimStartBefore(s[1..], b);
      }
    }
  }

  lemma TrimIgnoresOuterSpace(a: string, s: string, b: string)
    requires AllSpace(a) && AllSpace(b)
    ensures Trim(a + s + b) == Trim(s)
  {
    Reassociate(a, s, b);
    TrimStartOver(a, s + b);
    TrimStartBefore(s, b);
    TrimEndOver(TrimStart(s), b);
  }

  // White space around a text does not move its windows.
  lemma OuterSpaceIsIgnored(a: string, s: string, b: string)
    requires AllSpace(a) && AllSpace(b)
    ensures IndexChunks(a + s + b) == IndexChunks(s)
  {
    TrimIgnoresOuterSpace(a, s, b);
  }
}
