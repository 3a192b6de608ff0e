/** Telegram delivery routes written as text: a chat id with an optional thread id. */
module ContextId {
  import opened Common

  // -------------------------------------------------------------------------
  // Decimal numbers
  // -------------------------------------------------------------------------

  function DigitChar(d: nat): char
    requires d < 10
  {
    ['0', '1', '2', '3', '4', '5', '6', '7', '8', '9'][d]
  }

  function DigitValue(c: char): Option<nat> {
    if '0' <= c <= '9' then Some(c as int - '0' as int) else None
  }

  function ShowNat(n: nat): string {
    if n < 10 then [DigitChar(n)] else ShowNat(n / 10) + [DigitChar(n % 10)]
  }

  function Show(n: int): string {
    if n < 0 then "-" + ShowNat(-n) else ShowNat(n)
  }

  // The digits of a number, at least one and nothing else.
  function ReadNat(s: string): Option<nat> {
    if s == "" then None
    else
      match DigitValue(s[|s| - 1])
      case None => None
      case Some(d) =>
        if |s| == 1 then Some(d)
        else
          match ReadNat(s[..|s| - 1])
          case None => None
          case Some(n) => Some(10 * n + d)
  }

  // Parsing into a signed machine integer: an optional sign, digits, and a value in range.
  function ReadInt(s: string, lo: int, hi: int): Option<int> {
    if s == "" then None
    else
      var negative := s[0] == '-';
      var digits := if negative || s[0] == '+' then s[1..] else s;
      match ReadNat(digits)
      case None => None
      case Some(n) =>
        var v: int := if negative then -(n as int) else n;
        if lo <= v <= hi then Some(v) else None
  }

  lemma DigitRoundTrip(d: nat)
    requires d < 10
    ensures DigitValue(DigitChar(d)) == Some(d)
  {
  }

  // One more digit at the end.
  lemma ReadNatSnoc(s: string, n: nat, d: nat)
    requires s != "" && ReadNat(s) == Some(n) && d < 10
    ensures ReadNat(s + [DigitChar(d)]) == Some(10 * n + d)
  {
    DigitRoundTrip(d);
    var t := s + [DigitChar(d)];
    assert t[|t| - 1] == DigitChar(d) && t[..|t| - 1] == s;
  }

  predicate AllDigits(s: string) {
    forall i :: 0 <= i < |s| ==> DigitValue(s[i]).Some?
  }

  lemma {:induction false} ShownDigits(n: nat)
    ensures ShowNat(n) != "" && AllDigits(ShowNat(n))
  {
    if n < 10 {
      DigitRoundTrip(n);
    } else {
      ShownDigits(n / 10);
      DigitRoundTrip(n % 10);
    }
  }

  lemma {:induction false} ReadShowNat(n: nat)
    ensures ReadNat(ShowNat(n)) == Some(n)
  {
    if n < 10 {
      DigitRoundTrip(n);
    } else {
      ReadShowNat(n / 10);
      ShownDigits(n / 10);
      ReadNatSnoc(ShowNat(n / 10), n / 10, n % 10);
    }
  }

  lemma DigitsOnly(s: string)
    requires AllDigits(s) && s != ""
    ensures s[0] != '-' && s[0] != '+' && ':' !in s && ':' !in "-" + s
  {
    assert DigitValue('-').None? && DigitValue('+').None? && DigitValue(':').None?;
  }

  lemma ReadUnsigned(s: string, n: nat, lo: int, hi: int)
    requires AllDigits(s) && s != "" && ReadNat(s) == Some(n) && lo <= n <= hi
    ensures ReadInt(s, lo, hi) == Some(n) && ':' !in s
  {
    DigitsOnly(s);
  }

  lemma ReadNegative(s: string, n: nat, lo: int, hi: int)
    requires AllDigits(s) && s != "" && ReadNat(s) == Some(n) && lo <= -(n as int) <= hi
    ensures ReadInt("-" + s, lo, hi) == Some(-(n as int)) && ':' !in "-" + s
  {
    DigitsOnly(s);
    assert ("-" + s)[0] == '-' && ("-" + s)[1..] == s;
  }

  lemma ReadShow(n: int, lo: int, hi: int)
    requires lo <= n <= hi
    ensures ReadInt(Show(n), lo, hi) == Some(n) && ':' !in Show(n)
  {
    var size := if n < 0 then -n else n;
    ReadShowNat(size);
    ShownDigits(size);
    if n < 0 {
      ReadNegative(ShowNat(size), size, lo, hi);
    } else {
      ReadUnsigned(ShowNat(size), size, lo, hi);
    }
  }

  // -------------------------------------------------------------------------
  // Routes
  // -------------------------------------------------------------------------

  const I64_MIN: int := -0x8000_0000_0000_0000
  const I32_MIN: int := -0x8000_0000
  const I32_MAX: int := 0x7FFF_FFFF

  type i64 = n: int | I64_MIN <= n <= I64_MAX
  type i32 = n: int | I32_MIN <= n <= I32_MAX

  datatype Target = Target(chat: i64, thread: Option<i32>)

  function Derive(chat: i64, thread: Option<i32>): string {
    if thread.Some? then Show(chat) + ":" + Show(thread.value) else Show(chat)
  }

  // Position of the first colon, or the length.
  function FirstColon(s: string): (k: nat)
    ensures k <= |s| && (k < |s| ==> s[k] == ':') && ':' !in s[..k]
  {
    if s == "" || s[0] == ':' then 0 else 1 + FirstColon(s[1..])
  }

  function Parse(ctx: string): Option<Target> {
    var k := FirstColon(ctx);
    if k < |ctx| then
      match ReadInt(ctx[..k], I64_MIN, I64_MAX)
      case None => None
      case Some(chat) =>
        match ReadInt(ctx[k + 1..], I32_MIN, I32_MAX)
        case None => None
        case Some(thread) => Some(Target(chat, Some(thread)))
    else
      match ReadInt(ctx, I64_MIN, I64_MAX)
      case None => None
      case Some(chat) => Some(Target(chat, None))
  }

  lemma {:induction false} FirstColonAfter(a: string, rest: string)
    requires ':' !in a && (rest == "" || rest[0] == ':')
    ensures FirstColon(a + rest) == |a|
  {
    if a == "" {
      assert a + rest == rest;
    } else {
      assert (a + rest)[0] == a[0] && (a + rest)[1..] == a[1..] + rest;
      FirstColonAfter(a[1..], rest);
    }
  }

  lemma ParsePlain(a: string, chat: i64)
    requires ':' !in a && ReadInt(a, I64_MIN, I64_MAX) == Some(chat)
    ensures Parse(a) == Some(Target(chat, None))
  {
    FirstColonAfter(a, "");
    assert a + "" == a;
  }

  lemma ParseThreaded(a: string, b: string, chat: i64, thread: i32)
    requires ':' !in a && ReadInt(a, I64_MIN, I64_MAX) == Some(chat) && ReadInt(b, I32_MIN, I32_MAX) == Some(thread)
    ensures Parse(a + ":" + b) == Some(Target(chat, Some(thread)))
  {
    var ctx := a + ":" + b;
    assert ctx == a + (":" + b);
    FirstColonAfter(a, ":" + b);
    assert ctx[..|a|] == a && ctx[|a| + 1..] == b;
  }

  // Parsing undoes deriving, for every chat and thread.
  lemma ParseDerive(chat: i64, thread: Option<i32>)
    ensures Parse(Derive(chat, thread)) == Some(Target(chat, thread))
  {
    ReadShow(chat, I64_MIN, I64_MAX);
    if thread.Some? {
      ReadShow(thread.value, I32_MIN, I32_MAX);
      ParseThreaded(Show(chat), Show(thread.value), chat, thread.value);
    } else {
      ParsePlain(Show(chat), chat);
    }
  }

  // -------------------------------------------------------------------------
  // The written form
  // -------------------------------------------------------------------------

  function TenTo(k: nat): nat {
    if k == 0 then 1 else 10 * TenTo(k - 1)
  }

  predicate Decimal(s: string) {
    forall i :: 0 <= i < |s| ==> '0' <= s[i] <= '9'
  }

  function FigureOf(c: char): nat
    requires '0' <= c <= '9'
  {
    c as int - '0' as int
  }

  // The value of decimal digits, the first weighing most.
  function Weight(s: string): nat
    requires Decimal(s)
  {
    if s == "" then 0 else FigureOf(s[0]) * TenTo(|s| - 1) + Weight(s[1..])
  }

  lemma {:induction false} WeightSnoc(s: string, c: char)
    requires Decimal(s) && '0' <= c <= '9'
    ensures Decimal(s + [c]) && Weight(s + [c]) == 10 * Weight(s) + (c as int - '0' as int)
  {
    var t := s + [c];
    if s == "" {
      assert t == [c] && t[1..] == "";
    } else {
      assert t[0] == s[0] && t[1..] == s[1..] + [c];
      WeightSnoc(s[1..], c);
      TenTimes(FigureOf(s[0]), TenTo(|s| - 1));
    }
  }

  lemma TenTimes(d: int, p: nat)
    ensures d * (10 * p) == 10 * (d * p)
  {
  }

  lemma DigitsAreDecimal(d: nat)
    requires d < 10
    ensures '0' <= DigitChar(d) <= '9' && DigitChar(d) as int - '0' as int == d
  {
  }

  // Numbers are written in decimal, without leading zeros.
  lemma {:induction false} NumbersAreDecimal(n: nat)
    ensures Decimal(ShowNat(n)) && Weight(ShowNat(n)) == n
    ensures ShowNat(n) != "" && (n > 0 ==> ShowNat(n)[0] != '0')
  {
    if n < 10 {
      DigitsAreDecimal(n);
      WeightSnoc("", DigitChar(n));
      assert "" + [DigitChar(n)] == ShowNat(n);
    } else {
      NumbersAreDecimal(n / 10);
      DigitsAreDecimal(n % 10);
      WeightSnoc(ShowNat(n / 10), DigitChar(n % 10));
    }
  }

  // A route is written as its chat, a minus sign in front of a negative one, and a colon before its thread.
  lemma RoutesAsWritten(chat: i64, thread: i32)
    ensures
      var c, t := Derive(chat, None), Derive(thread, None);
      Derive(chat, Some(thread)) == c + [':'] + t
    ensures chat >= 0 ==> Decimal(Derive(chat, None)) && Weight(Derive(chat, None)) == chat
    ensures chat < 0 ==>
              var c := Derive(chat, None);
              c != "" && c[0] == '-' && Decimal(c[1..]) && chat + Weight(c[1..]) == 0
  {
    var n: int := chat;
    if n < 0 {
      NumbersAreDecimal(-n);
      assert Derive(chat, None)[1..] == ShowNat(-n);
    } else {
      NumbersAreDecimal(n);
    }
  }

  lemma {:induction false} ReadNatIsWeight(s: string)
    ensures ReadNat(s) == if s != "" && Decimal(s) then Some(Weight(s)) else None
  {
    if s != "" {
      var front, c := s[..|s| - 1], s[|s| - 1];
      assert s == front + [c];
      ReadNatIsWeight(front);
      if Decimal(front) && '0' <= c <= '9' {
        WeightSnoc(front, c);
      }
      if Decimal(s) {
        assert forall i :: 0 <= i < |front| ==> front[i] == s[i];
      }
    }
  }

  // What counts as a number: digits, with a value in range, ...
  lemma DigitsAsRead(s: string, lo: int, hi: int)
    requires s != "" && Decimal(s)
    ensures ReadInt(s, lo, hi) == if lo <= Weight(s) <= hi then Some(Weight(s)) else None
  {
    ReadNatIsWeight(s);
    assert '0' <= s[0] <= '9';
  }

  // ... behind at most one sign, ...
  lemma PlusAsRead(s: string, lo: int, hi: int)
    requires s != "" && Decimal(s)
    ensures ReadInt("+" + s, lo, hi) == if lo <= Weight(s) <= hi then Some(Weight(s)) else None
  {
    ReadNatIsWeight(s);
    assert ("+" + s)[0] == '+' && ("+" + s)[1..] == s;
  }

  lemma MinusAsRead(s: string, lo: int, hi: int, n: int)
    requires s != "" && Decimal(s) && n == Weight(s)
    ensures ReadInt("-" + s, lo, hi) == if lo <= -n <= hi then Some(-n) else None
  {
    ReadNatIsWeight(s);
    assert ("-" + s)[0] == '-' && ("-" + s)[1..] == s;
  }

  // ... and nothing else.
  lemma OthersAreNoNumbers(s: string, lo: int, hi: int)
    requires s == "" || !Decimal(if s[0] == '+' || s[0] == '-' then s[1..] else s) || s == "+" || s == "-"
    ensures ReadInt(s, lo, hi) == None
  {
    if s != "" {
      ReadNatIsWeight(if s[0] == '+' || s[0] == '-' then s[1..] else s);
    }
  }
}
