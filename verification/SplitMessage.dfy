/**
 Splitting a long Telegram message into chunks.

 Texts are UTF-8 byte strings, as the lengths and offsets of the original are byte counts.
 The original loop need not terminate, so it is given twice: as a machine that takes one loop
 iteration at a time, and as a loop for the texts on which the machine is shown to halt.
 */
module SplitMessage {
  import opened Common
  import opened Utf8

  // Index of the last occurrence of a byte.
  function RFind(w: bytes, c: byte): (r: Option<nat>)
    ensures r.Some? ==> r.value < |w| && w[r.value] == c && forall j :: r.value < j < |w| ==> w[j] != c
    ensures r.None? ==> forall j :: 0 <= j < |w| ==> w[j] != c
  {
    if w == [] then None
    else if w[|w| - 1] == c then Some(|w| - 1)
    else RFind(w[..|w| - 1], c)
  }

  // Index of the last blank line, two line feeds in a row.
  function RFindBlankLine(w: bytes): (r: Option<nat>)
    ensures r.Some? ==> r.value + 1 < |w| && w[r.value] == LF && w[r.value + 1] == LF
    ensures r.Some? ==> forall j :: r.value < j < |w| - 1 ==> !(w[j] == LF && w[j + 1] == LF)
    ensures r.None? ==> forall j :: 0 <= j < |w| - 1 ==> !(w[j] == LF && w[j + 1] == LF)
  {
    if |w| < 2 then None
    else if w[|w| - 2] == LF && w[|w| - 1] == LF then Some(|w| - 2)
    else
      var r := RFindBlankLine(w[..|w| - 1]);
      assert forall j :: 0 <= j < |w| - 1 ==> w[..|w| - 1][j] == w[j];
      r
  }

  // Where the window is cut: a blank line, else a line feed, else a space, else at its end.
  function SplitPos(w: bytes): (p: nat)
    ensures p <= |w|
  {
    if RFindBlankLine(w).Some? then RFindBlankLine(w).value
    else if RFind(w, LF).Some? then RFind(w, LF).value
    else if RFind(w, SPACE).Some? then RFind(w, SPACE).value
    else |w|
  }

  function TrimLf(s: bytes): bytes {
    if s != [] && s[0] == LF then TrimLf(s[1..]) else s
  }

  // A slice may only be cut between characters; anything else is a panic.
  predicate Boundary(s: bytes, i: nat) {
    i == 0 || i == |s| || (i < |s| && !(0x80 <= s[i] <= 0xBF))
  }

  // -------------------------------------------------------------------------
  // The loop as a machine
  // -------------------------------------------------------------------------

  datatype Progress = Running(rest: bytes, chunks: seq<bytes>) | Done(chunks: seq<bytes>) | Panicked

  function Start(text: bytes, max: nat): Progress {
    if |text| <= max then Done([text]) else Running(text, [])
  }

  function Next(p: Progress, max: nat): Progress {
    match p
    case Running(rest, chunks) =>
      if |rest| <= max then Done(if rest != [] then chunks + [rest] else chunks)
      else if !Boundary(rest, max) then Panicked
      else
        var pos := SplitPos(rest[..max]);
        Running(TrimLf(rest[pos..]), chunks + [rest[..pos]])
    case _ => p
  }

  function After(p: Progress, max: nat, n: nat): Progress
    decreases n
  {
    if n == 0 then p else After(Next(p, max), max, n - 1)
  }

  // -------------------------------------------------------------------------
  // When the loop halts
  // -------------------------------------------------------------------------

  // More text than fits follows position `q`, and the window that starts there breaks at its first byte only.
  predicate Trap(text: bytes, max: nat, q: nat) {
    && q < |text| && |text| - q > max
    && if max == 0 then text[q] != LF
       else text[q] == SPACE && forall j :: q < j < q + max ==> text[j] != SPACE && text[j] != LF
  }

  ghost predicate HasTrap(text: bytes, max: nat) {
    exists q: nat :: Trap(text, max, q)
  }

  lemma {:induction false} TrimIsSuffix(s: bytes) returns (k: nat)
    ensures k <= |s| && TrimLf(s) == s[k..] && forall j :: 0 <= j < k ==> s[j] == LF
    ensures k < |s| ==> s[k] != LF
  {
    if s != [] && s[0] == LF {
      var k' := TrimIsSuffix(s[1..]);
      k := k' + 1;
      assert forall j :: 1 <= j < k ==> s[j] == s[1..][j - 1];
    } else {
      k := 0;
    }
  }

  // The cut never goes past a trap.
  lemma CutStopsAtTrap(rest: bytes, max: nat, q: nat)
    requires |rest| > max && Trap(rest, max, q)
    ensures SplitPos(rest[..max]) <= q
  {
    var w := rest[..max];
    assert forall j :: 0 <= j < max ==> w[j] == rest[j];
  }

  lemma TrapInSuffix(rest: bytes, max: nat, q: nat, s: nat)
    requires Trap(rest, max, q) && s <= q
    ensures Trap(rest[s..], max, q - s)
  {
    assert forall j :: 0 <= j < |rest| - s ==> rest[s..][j] == rest[s + j];
  }

  // A trap ahead stays ahead.
  lemma TrapStays(rest: bytes, max: nat, chunks: seq<bytes>)
    requires HasTrap(rest, max)
    ensures
      var p := Next(Running(rest, chunks), max);
      p.Panicked? || (p.Running? && HasTrap(p.rest, max))
  {
    var q: nat :| Trap(rest, max, q);
    if Boundary(rest, max) {
      CutStopsAtTrap(rest, max, q);
      var pos := SplitPos(rest[..max]);
      var k := TrimBehind(rest, pos);
      assert rest[q] != LF;
      TrapInSuffix(rest, max, q, pos + k);
    }
  }

  // A run that will not finish.
  ghost predicate Stuck(p: Progress, max: nat) {
    p.Panicked? || (p.Running? && HasTrap(p.rest, max))
  }

  lemma StuckStays(p: Progress, max: nat)
    requires Stuck(p, max)
    ensures Stuck(Next(p, max), max)
  {
    if p.Running? {
      TrapStays(p.rest, max, p.chunks);
    }
  }

  lemma {:induction false} StuckForever(p: Progress, max: nat, n: nat)
    requires Stuck(p, max)
    ensures Stuck(After(p, max, n), max)
    decreases n
  {
    if n > 0 {
      StuckStays(p, max);
      StuckForever(Next(p, max), max, n - 1);
    }
  }

  lemma TrapForever(rest: bytes, max: nat, chunks: seq<bytes>, n: nat)
    requires HasTrap(rest, max)
    ensures !After(Running(rest, chunks), max, n).Done?
  {
    StuckForever(Running(rest, chunks), max, n);
  }

  lemma {:induction false} PanicStays(max: nat, n: nat)
    ensures After(Panicked, max, n) == Panicked
    decreases n
  {
    if n > 0 {
      PanicStays(max, n - 1);
    }
  }

  // Without a trap every iteration consumes text and none appears.
  lemma IterationConsumes(rest: bytes, max: nat) returns (pos: nat, k: nat)
    requires !HasTrap(rest, max) && |rest| > max
    ensures pos == SplitPos(rest[..max]) && pos + k <= |rest| && pos + k > 0
    ensures TrimLf(rest[pos..]) == rest[pos + k..]
    ensures forall j :: pos <= j < pos + k ==> rest[j] == LF
    ensures pos + k < |rest| ==> rest[pos + k] != LF
    ensures !HasTrap(rest[pos + k..], max)
  {
    pos := SplitPos(rest[..max]);
    k := TrimBehind(rest, pos);
    if pos + k == 0 {
      NoCutIsTrap(rest, max);
    }
    SuffixHasNoTrap(rest, max, pos + k);
  }

  lemma TrimBehind(rest: bytes, pos: nat) returns (k: nat)
    requires pos <= |rest|
    ensures pos + k <= |rest| && TrimLf(rest[pos..]) == rest[pos + k..]
    ensures forall j :: pos <= j < pos + k ==> rest[j] == LF
    ensures pos + k < |rest| ==> rest[pos + k] != LF
  {
    k := TrimIsSuffix(rest[pos..]);
    assert rest[pos..][k..] == rest[pos + k..];
    assert forall j :: pos <= j < |rest| ==> rest[j] == rest[pos..][j - pos];
  }

  // A cut at the front with nothing to trim there is made at a space that is the only break.
  lemma NoCutIsTrap(rest: bytes, max: nat)
    requires |rest| > max && SplitPos(rest[..max]) == 0 && rest[0] != LF
    ensures Trap(rest, max, 0)
  {
    var w := rest[..max];
    assert forall j :: 0 <= j < max ==> w[j] == rest[j];
  }

  lemma SuffixHasNoTrap(rest: bytes, max: nat, s: nat)
    requires !HasTrap(rest, max) && s <= |rest|
    ensures !HasTrap(rest[s..], max)
  {
    var tail := rest[s..];
    if HasTrap(tail, max) {
      var q: nat :| Trap(tail, max, q);
      assert forall j :: 0 <= j < |tail| ==> tail[j] == rest[s + j];
      assert forall j :: s + q < j < s + q + max ==> rest[j] == tail[j - s];
      assert Trap(rest, max, s + q);
    }
  }

  lemma {:induction false} NoTrapHalts(rest: bytes, max: nat, chunks: seq<bytes>) returns (n: nat)
    requires !HasTrap(rest, max)
    ensures After(Running(rest, chunks), max, n).Done? || After(Running(rest, chunks), max, n).Panicked?
    decreases |rest|
  {
    var p := Next(Running(rest, chunks), max);
    n := 1;
    if |rest| > max && Boundary(rest, max) {
      var pos, k := IterationConsumes(rest, max);
      var m := NoTrapHalts(p.rest, max, p.chunks);
      n := m + 1;
    }
  }

  predicate Ascii(text: bytes) {
    forall i :: 0 <= i < |text| ==> text[i] < 0x80
  }

  lemma AsciiSuffix(s: bytes, k: nat)
    requires Ascii(s) && k <= |s|
    ensures Ascii(s[k..])
  {
  }

  lemma {:induction false} AsciiNeverPanics(rest: bytes, max: nat, chunks: seq<bytes>, n: nat)
    requires Ascii(rest)
    ensures !After(Running(rest, chunks), max, n).Panicked?
    decreases n
  {
    if n > 0 {
      var p := Next(Running(rest, chunks), max);
      if p.Running? {
        var pos := SplitPos(rest[..max]);
        var k := TrimIsSuffix(rest[pos..]);
        AsciiSuffix(rest, pos);
        AsciiSuffix(rest[pos..], k);
        AsciiNeverPanics(p.rest, max, p.chunks, n - 1);
      } else {
        DoneStays(p.chunks, max, n - 1);
      }
    }
  }

  lemma {:induction false} DoneStays(chunks: seq<bytes>, max: nat, n: nat)
    ensures After(Done(chunks), max, n) == Done(chunks)
    decreases n
  {
    if n > 0 {
      DoneStays(chunks, max, n - 1);
    }
  }

  // -------------------------------------------------------------------------
  // Where it cuts
  // -------------------------------------------------------------------------

  predicate BlankLineAt(w: bytes, i: nat) {
    i + 1 < |w| && w[i] == 10 && w[i + 1] == 10
  }

  predicate ByteAt(w: bytes, b: byte, i: nat) {
    i < |w| && w[i] == b
  }

  predicate LastBlankLine(w: bytes, p: nat) {
    BlankLineAt(w, p) && forall i :: p < i < |w| ==> !BlankLineAt(w, i)
  }

  predicate LastByte(w: bytes, b: byte, p: nat) {
    ByteAt(w, b, p) && forall i :: p < i < |w| ==> !ByteAt(w, b, i)
  }

  predicate NoBlankLine(w: bytes) {
    forall i :: 0 <= i < |w| ==> !BlankLineAt(w, i)
  }

  predicate Lacks(w: bytes, b: byte) {
    forall i :: 0 <= i < |w| ==> !ByteAt(w, b, i)
  }

  lemma RFindIsLast(w: bytes, b: byte)
    ensures RFind(w, b).Some? ==> LastByte(w, b, RFind(w, b).value)
    ensures RFind(w, b).None? ==> Lacks(w, b)
  {
  }

  // At the last blank line, else the last line feed, else the last space, else at the limit.
  lemma CutsAtTheBestBreak(w: bytes)
    ensures
      var p := SplitPos(w);
      || LastBlankLine(w, p)
      || (NoBlankLine(w) && LastByte(w, 10, p))
      || (NoBlankLine(w) && Lacks(w, 10) && LastByte(w, 32, p))
      || (NoBlankLine(w) && Lacks(w, 10) && Lacks(w, 32) && p == |w|)
  {
    RFindIsLast(w, 10);
    RFindIsLast(w, 32);
    var r := RFindBlankLine(w);
    if r.None? {
      assert NoBlankLine(w);
    }
  }

  // One iteration: the chunk is the text before the cut, and exactly the line feeds at the cut are dropped.
  lemma IterationCuts(rest: bytes, max: nat, chunks: seq<bytes>) returns (k: nat)
    requires |rest| > max && Boundary(rest, max)
    ensures
      var p := SplitPos(rest[..max]);
      && p + k <= |rest| && Next(Running(rest, chunks), max) == Running(rest[p + k..], chunks + [rest[..p]])
      && (forall j :: p <= j < p + k ==> rest[j] == 10) && (p + k < |rest| ==> rest[p + k] != 10)
  {
    k := TrimBehind(rest, SplitPos(rest[..max]));
  }

  // -------------------------------------------------------------------------
  // When it panics
  // -------------------------------------------------------------------------

  // A limit that falls inside a character stops the first iteration.
  lemma CutInsideCharacterPanics(text: bytes, max: nat)
    requires |text| > max && !Boundary(text, max)
    ensures After(Start(text, max), max, 1).Panicked?
  {
    assert After(Next(Start(text, max), max), max, 0) == Panicked;
  }

  // Valid text that is not single-byte has a continuation byte.
  lemma {:induction false} ContinuationByte(text: bytes) returns (j: nat)
    requires Valid(text) && !Ascii(text)
    ensures 0 < j < |text| && 0x80 <= text[j] <= 0xBF
  {
    if text[0] >= 0x80 {
      j := 1;
    } else {
      var rest := text[1..];
      assert Width(text) == 1 && Valid(rest);
      assert forall i :: 1 <= i < |text| ==> text[i] == rest[i - 1];
      var i := ContinuationByte(rest);
      j := i + 1;
    }
  }

  // Exactly the single-byte texts are safe at every limit.
  lemma NeverPanicsExactlyWhenAscii(text: bytes)
    requires Valid(text)
    ensures (forall max: nat, n: nat :: !After(Start(text, max), max, n).Panicked?) <==> Ascii(text)
  {
    if Ascii(text) {
      forall max: nat, n: nat ensures !After(Start(text, max), max, n).Panicked? {
        if |text| <= max {
          DoneStays([text], max, n);
        } else {
          AsciiNeverPanics(text, max, [], n);
        }
      }
    } else {
      var j := ContinuationByte(text);
      CutInsideCharacterPanics(text, j);
    }
  }

  // A letter and a two-byte character, at a limit of two bytes.
  lemma AccentAtTheLimit()
    ensures Valid([97, 0xC3, 0xA9]) && After(Start([97, 0xC3, 0xA9], 2), 2, 1).Panicked?
  {
    var text: bytes := [97, 0xC3, 0xA9];
    var rest := text[1..];
    assert Width(text) == 1 && rest == [0xC3, 0xA9] && Width(rest) == 2 && rest[2..] == [];
    assert Valid(rest);
    CutInsideCharacterPanics(text, 2);
  }

  // A single-byte text longer than the limit is split exactly when it holds no trap.
  lemma HaltsExactlyWithoutTrap(text: bytes, max: nat)
    requires Ascii(text)
    ensures (exists n :: After(Start(text, max), max, n).Done?) <==> |text| <= max || !HasTrap(text, max)
  {
    if |text| <= max {
      assert After(Start(text, max), max, 0).Done?;
    } else if HasTrap(text, max) {
      forall n ensures !After(Start(text, max), max, n).Done? {
        TrapForever(text, max, [], n);
      }
    } else {
      var n := NoTrapHalts(text, max, []);
      AsciiNeverPanics(text, max, [], n);
      assert After(Start(text, max), max, n).Done?;
    }
  }

  // A word of five letters after a space, at a limit of four bytes, is never split.
  lemma LongWordAfterSpace(n: nat)
    ensures !After(Start([97, 97, 32, 98, 98, 98, 98, 98], 4), 4, n).Done?
  {
    var text: bytes := [97, 97, 32, 98, 98, 98, 98, 98];
    assert Trap(text, 4, 2);
    TrapForever(text, 4, [], n);
  }

  // -------------------------------------------------------------------------
  // The loop as a loop
  // -------------------------------------------------------------------------

  function Feeds(n: nat): bytes {
    seq(n, i => LF)
  }

  // Chunks with runs of line feeds between and after them.
  function Rebuild(chunks: seq<bytes>, gaps: seq<nat>): bytes
    requires |chunks| == |gaps|
  {
    if chunks == [] then []
    else
      var n := |chunks| - 1;
      Rebuild(chunks[..n], gaps[..n]) + chunks[n] + Feeds(gaps[n])
  }

  lemma RebuildSnoc(chunks: seq<bytes>, gaps: seq<nat>, c: bytes, g: nat)
    requires |chunks| == |gaps|
    ensures Rebuild(chunks + [c], gaps + [g]) == Rebuild(chunks, gaps) + c + Feeds(g)
  {
    assert (chunks + [c])[..|chunks|] == chunks;
    assert (gaps + [g])[..|gaps|] == gaps;
  }

  // Every chunk fits, only the first can be empty, and together with runs of line feeds they are the text.
  ghost predicate GoodSplit(text: bytes, max: nat, chunks: seq<bytes>) {
    && (forall i :: 0 <= i < |chunks| ==> |chunks[i]| <= max)
    && (forall i :: 1 <= i < |chunks| ==> chunks[i] != [])
    && exists gaps: seq<nat> :: |gaps| == |chunks| && text == Rebuild(chunks, gaps)
  }

  function Verdict(r: Option<seq<bytes>>): Progress {
    if r.Some? then Done(r.value) else Panicked
  }

  // None stands for the panic on a cut inside a character.
  method Split(text: bytes, max: nat) returns (r: Option<seq<bytes>>)
    requires |text| <= max || !HasTrap(text, max)
    ensures r.Some? ==> GoodSplit(text, max, r.value)
    ensures Ascii(text) ==> r.Some?
    ensures exists n :: Reaches(text, max, n, Verdict(r))
  {
    if |text| <= max {
      WholeText(text, max);
      r := Some([text]);
      assert Reaches(text, max, 0, Verdict(r));
      return;
    }
    var chunks: seq<bytes> := [];
    var remaining := text;
    ghost var gaps: seq<nat> := [];
    ghost var n := 0;
    AtStart(text, max);
    while |remaining| > max
      invariant SoFar(text, max, chunks, gaps, remaining)
      invariant Reaches(text, max, n, Running(remaining, chunks))
      decreases |remaining|
    {
      Advance(text, max, n, Running(remaining, chunks));
      n := n + 1;
      if !Boundary(remaining, max) {
        r := None;
        assert Reaches(text, max, n, Verdict(r));
        return;
      }
      var pos := SplitPos(remaining[..max]);
      gaps := KeepSoFar(text, max, chunks, gaps, remaining);
      chunks := chunks + [remaining[..pos]];
      remaining := TrimLf(remaining[pos..]);
    }
    Advance(text, max, n, Running(remaining, chunks));
    LastChunk(text, max, chunks, gaps, remaining);
    if remaining != [] {
      chunks := chunks + [remaining];
    }
    r := Some(chunks);
    assert Reaches(text, max, n + 1, Verdict(r));
  }

  // What holds between two iterations.
  ghost predicate SoFar(text: bytes, max: nat, chunks: seq<bytes>, gaps: seq<nat>, rest: bytes) {
    && !HasTrap(rest, max)
    && |gaps| == |chunks| && Rebuild(chunks, gaps) + rest == text
    && (forall i :: 0 <= i < |chunks| ==> |chunks[i]| <= max)
    && (forall i :: 1 <= i < |chunks| ==> chunks[i] != [])
    && (chunks != [] && rest != [] ==> rest[0] != LF)
    && (Ascii(text) ==> Ascii(rest))
  }

  lemma KeepSoFar(text: bytes, max: nat, chunks: seq<bytes>, gaps: seq<nat>, rest: bytes) returns (gaps': seq<nat>)
    requires SoFar(text, max, chunks, gaps, rest) && |rest| > max
    ensures
      var pos := SplitPos(rest[..max]);
      SoFar(text, max, chunks + [rest[..pos]], gaps', TrimLf(rest[pos..])) && |TrimLf(rest[pos..])| < |rest|
  {
    var pos, k := IterationConsumes(rest, max);
    var c := rest[..pos];
    gaps' := gaps + [k];
    RebuildSnoc(chunks, gaps, c, k);
    Pieces(rest, pos, k);
    Reassociate(Rebuild(chunks, gaps), c + Feeds(k), rest[pos + k..]);
    Reassociate(Rebuild(chunks, gaps), c, Feeds(k));
    ChunkFacts(rest, max, pos, chunks);
    if Ascii(text) {
      AsciiSuffix(rest, pos + k);
    }
  }

  lemma Pieces(rest: bytes, pos: nat, k: nat)
    requires pos + k <= |rest| && forall j :: pos <= j < pos + k ==> rest[j] == LF
    ensures rest == rest[..pos] + Feeds(k) + rest[pos + k..]
  {
  }

  // A cut chunk fits, and behind a trimmed start it is not empty.
  lemma ChunkFacts(rest: bytes, max: nat, pos: nat, chunks: seq<bytes>)
    requires !HasTrap(rest, max) && |rest| > max && pos == SplitPos(rest[..max])
    requires chunks != [] ==> rest[0] != LF
    requires forall i :: 0 <= i < |chunks| ==> |chunks[i]| <= max
    requires forall i :: 1 <= i < |chunks| ==> chunks[i] != []
    ensures forall i :: 0 <= i < |chunks + [rest[..pos]]| ==> |(chunks + [rest[..pos]])[i]| <= max
    ensures forall i :: 1 <= i < |chunks + [rest[..pos]]| ==> (chunks + [rest[..pos]])[i] != []
  {
    var pos', k := IterationConsumes(rest, max);
    assert chunks != [] ==> pos > 0;
  }

  lemma WholeText(text: bytes, max: nat)
    requires |text| <= max
    ensures GoodSplit(text, max, [text]) && Reaches(text, max, 0, Done([text]))
  {
    assert text == Rebuild([text], [0]);
  }

  lemma AtStart(text: bytes, max: nat)
    requires !HasTrap(text, max) && |text| > max
    ensures SoFar(text, max, [], [], text) && Reaches(text, max, 0, Running(text, []))
  {
  }

  lemma LastChunk(text: bytes, max: nat, chunks: seq<bytes>, gaps: seq<nat>, rest: bytes)
    requires SoFar(text, max, chunks, gaps, rest) && |rest| <= max
    ensures GoodSplit(text, max, if rest != [] then chunks + [rest] else chunks)
  {
    if rest != [] {
      RebuildSnoc(chunks, gaps, rest, 0);
      assert Rebuild(chunks + [rest], gaps + [0]) == text;
    } else {
      assert Rebuild(chunks, gaps) == text;
    }
  }

  // The machine is in state `p` after `n` iterations.
  predicate Reaches(text: bytes, max: nat, n: nat, p: Progress) {
    After(Start(text, max), max, n) == p
  }

  lemma {:induction false} OneMore(p: Progress, max: nat, n: nat)
    ensures After(p, max, n + 1) == Next(After(p, max, n), max)
    decreases n
  {
    if n > 0 {
      OneMore(Next(p, max), max, n - 1);
    }
  }

  lemma Advance(text: bytes, max: nat, n: nat, p: Progress)
    requires Reaches(text, max, n, p)
    ensures Reaches(text, max, n + 1, Next(p, max))
  {
    OneMore(Start(text, max), max, n);
  }
}
