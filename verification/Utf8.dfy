/** UTF-8 validity of byte strings, as `std::str::from_utf8` decides it (table 3-7 of the Unicode Standard). */
module Utf8 {
  type byte = b: int | 0 <= b < 256
  type bytes = seq<byte>

  const LF: byte := 10
  const CR: byte := 13
  const SPACE: byte := 32

  predicate Tail(s: bytes, i: nat) {
    i < |s| && 0x80 <= s[i] <= 0xBF
  }

  predicate Second(s: bytes, lo: int, hi: int) {
    1 < |s| && lo <= s[1] <= hi
  }

  // Length of the well-formed code point at the front, or 0 if there is none.
  function Width(s: bytes): (n: nat)
    ensures n <= |s| && n <= 4
  {
    if s == [] then 0
    else if s[0] < 0x80 then 1
    else if 0xC2 <= s[0] <= 0xDF then (if Tail(s, 1) then 2 else 0)
    else if s[0] == 0xE0 then (if Second(s, 0xA0, 0xBF) && Tail(s, 2) then 3 else 0)
    else if s[0] == 0xED then (if Second(s, 0x80, 0x9F) && Tail(s, 2) then 3 else 0)
    else if 0xE1 <= s[0] <= 0xEF then (if Tail(s, 1) && Tail(s, 2) then 3 else 0)
    else if s[0] == 0xF0 then (if Second(s, 0x90, 0xBF) && Tail(s, 2) && Tail(s, 3) then 4 else 0)
    else if 0xF1 <= s[0] <= 0xF3 then (if Tail(s, 1) && Tail(s, 2) && Tail(s, 3) then 4 else 0)
    else if s[0] == 0xF4 then (if Second(s, 0x80, 0x8F) && Tail(s, 2) && Tail(s, 3) then 4 else 0)
    else 0
  }

  predicate Valid(s: bytes)
    decreases |s|
  {
    s == [] || (Width(s) > 0 && Valid(s[Width(s)..]))
  }

  // A code point is recognised by its own bytes alone.
  lemma WidthIsLocal(s: bytes, t: bytes)
    requires Width(s) > 0
    ensures Width(s + t) == Width(s)
  {
    assert forall i :: 0 <= i < |s| ==> (s + t)[i] == s[i];
  }

  // An ASCII byte is never inside a longer code point.
  lemma WidthStopsAtAscii(a: bytes, c: byte, b: bytes)
    requires c < 0x80 && a != [] && Width(a + [c] + b) > 0
    ensures Width(a) == Width(a + [c] + b) <= |a|
  {
    var s := a + [c] + b;
    assert forall i :: 0 <= i < |a| ==> s[i] == a[i];
    assert s[|a|] == c;
  }

  lemma {:induction false} ValidAppend(a: bytes, b: bytes)
    requires Valid(a) && Valid(b)
    ensures Valid(a + b)
    decreases |a|
  {
    if a == [] {
      assert a + b == b;
    } else {
      WidthIsLocal(a, b);
      assert (a + b)[Width(a)..] == a[Width(a)..] + b;
      ValidAppend(a[Width(a)..], b);
    }
  }

  // Cutting a valid string at an ASCII byte leaves two valid strings.
  lemma {:induction false} ValidSplit(a: bytes, c: byte, b: bytes)
    requires c < 0x80 && Valid(a + [c] + b)
    ensures Valid(a) && Valid(b)
    decreases |a|
  {
    var s := a + [c] + b;
    if a == [] {
      assert s == [c] + b;
      assert Width(s) == 1 && s[1..] == b;
    } else {
      WidthStopsAtAscii(a, c, b);
      var n := Width(a);
      assert s[n..] == a[n..] + [c] + b;
      ValidSplit(a[n..], c, b);
    }
  }
}
