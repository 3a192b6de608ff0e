/** What a strict reader of Telegram's HTML subset makes of the scanner's output. */
module MarkdownTheorems {
  import opened Common
  import opened Markdown

  // Outside all elements, inside the text of one, or inside the address of a link, with what was read there.
  datatype Place = Outside | Within(tag: Tag, url: string, text: string) | Address(url: string)

  // The place behind an opening tag.
  function Entered(t: Tag): Place {
    if t.A? then Address("") else Within(t, "", "")
  }

  // The opening tag at the front.
  function Opening(h: string): (r: Option<Tag>)
    ensures r.Some? ==> OpenTag(r.value) <= h
  {
    if OpenTag(Pre) <= h then Some(Pre)
    else if OpenTag(Code) <= h then Some(Code)
    else if OpenTag(B) <= h then Some(B)
    else if OpenTag(S) <= h then Some(S)
    else if OpenTag(I) <= h then Some(I)
    else if OpenTag(A) <= h then Some(A)
    else None
  }

  function Closed(at: Place): Segment
    requires at.Within?
  {
    if at.tag.A? then Link(at.url, at.text) else Element(at.tag, at.text)
  }

  // The markup at the front, in a given place: its length, the place behind it and the segment it completes.
  function Markup(h: string, at: Place): (r: Option<(nat, Place, seq<Segment>)>)
    ensures r.Some? ==> 0 < r.value.0 <= |h|
  {
    match at
    case Outside =>
      (match Opening(h)
       case None => None
       case Some(t) => Some((|OpenTag(t)|, Entered(t), [])))
    case Within(t, _, _) => if CloseTag(t) <= h then Some((|CloseTag(t)|, Outside, [Closed(at)])) else None
    case Address(url) => if "\">" <= h then Some((2, Within(A, url, ""), [])) else None
  }

  // One character of text.
  function Took(at: Place, c: char): (Place, seq<Segment>) {
    match at
    case Outside => (Outside, [Plain(c)])
    case Within(_, _, text) => (at.(text := text + [c]), [])
    case Address(url) => (Address(url + [c]), [])
  }

  // The segments of a document, or None if it is not a sequence of escaped text and closed, unnested
  // elements (a raw angle bracket or ampersand outside markup, an unknown tag, a missing or mismatched
  // closing tag).  The strict reader also ends an address at its first double quote, and refuses what
  // does not go on with the tag's end there.
  function Read(strict: bool, h: string, at: Place): Option<seq<Segment>>
    decreases |h|
  {
    if h == "" then (if at.Outside? then Some([]) else None)
    else if Markup(h, at).Some? then
      var (n, at', out) := Markup(h, at).value;
      Before(out, Read(strict, h[n..], at'))
    else if strict && at.Address? && h[0] == '"' then None
    else
      match TextStep(h)
      case None => None
      case Some(e) => Before(Took(at, e.0).1, Read(strict, h[e.1..], Took(at, e.0).0))
  }

  function Before(out: seq<Segment>, rest: Option<seq<Segment>>): Option<seq<Segment>> {
    match rest
    case None => None
    case Some(gs) => Some(out + gs)
  }

  // -------------------------------------------------------------------------
  // Reading what the scanner writes
  // -------------------------------------------------------------------------

  lemma MarkupStartsWithAngle(h: string, at: Place)
    requires h != "" && h[0] != '<' && !at.Address?
    ensures Markup(h, at).None?
  {
    if at.Outside? {
      assert forall t :: OpenTag(t)[0] == '<';
    } else {
      assert CloseTag(at.tag)[0] == '<';
    }
  }

  lemma AddressGoesOn(h: string, url: string)
    requires |h| < 2 || h[0] != '"' || h[1] != '>'
    ensures Markup(h, Address(url)).None?
  {
  }

  // Reading one escaped character, which is never taken for markup.
  lemma ReadChar(strict: bool, c: char, at: Place, rest: string)
    requires at.Address? ==> rest != "" && rest[0] != '>' && (strict ==> c != '"')
    ensures Read(strict, EscapeChar(c) + rest, at) == Before(Took(at, c).1, Read(strict, rest, Took(at, c).0))
  {
    var h := EscapeChar(c) + rest;
    StepOverChar(c, rest);
    if at.Address? {
      if h[0] == '"' {
        assert h[1] == rest[0];
      }
      AddressGoesOn(h, at.url);
    } else {
      MarkupStartsWithAngle(h, at);
    }
  }

  function WithText(at: Place, t: string): Place
    requires !at.Outside?
  {
    if at.Within? then at.(text := at.text + t) else Address(at.url + t)
  }

  lemma WithNoText(at: Place)
    requires !at.Outside?
    ensures WithText(at, "") == at
  {
    if at.Within? {
      assert at.text + "" == at.text;
    } else {
      assert at.url + "" == at.url;
    }
  }

  lemma WithTextStep(at: Place, t: string)
    requires !at.Outside? && t != ""
    ensures WithText(Took(at, t[0]).0, t[1..]) == WithText(at, t)
  {
    if at.Within? {
      assert at.text + [t[0]] + t[1..] == at.text + t;
    } else {
      assert at.url + [t[0]] + t[1..] == at.url + t;
    }
  }

  lemma BeforeNothing(r: Option<seq<Segment>>)
    ensures Before([], r) == r
  {
    if r.Some? {
      assert [] + r.value == r.value;
    }
  }

  lemma EscapeStart(t: string, rest: string)
    requires t != "" || (rest != "" && rest[0] != '>')
    ensures
      var h := Escape(t) + rest;
      h != "" && h[0] != '>'
  {
    if t != "" {
      StepOverChar(t[0], Escape(t[1..]) + rest);
      assert Escape(t) + rest == EscapeChar(t[0]) + (Escape(t[1..]) + rest);
    }
  }

  // Escaped text inside an element or an address is read back as it was.
  lemma {:induction false} ReadText(strict: bool, t: string, at: Place, rest: string)
    requires !at.Outside? && rest != "" && rest[0] != '>'
    requires strict && at.Address? ==> '"' !in t
    ensures Read(strict, Escape(t) + rest, at) == Read(strict, rest, WithText(at, t))
    decreases |t|
  {
    if t == "" {
      assert Escape(t) + rest == rest;
      WithNoText(at);
    } else {
      var tail := Escape(t[1..]) + rest;
      assert Escape(t) + rest == EscapeChar(t[0]) + tail;
      EscapeStart(t[1..], rest);
      ReadChar(strict, t[0], at, tail);
      var at1 := Took(at, t[0]).0;
      BeforeNothing(Read(strict, tail, at1));
      ReadText(strict, t[1..], at1, rest);
      WithTextStep(at, t);
    }
  }

  lemma ReadOpening(strict: bool, t: Tag, rest: string)
    ensures Read(strict, OpenTag(t) + rest, Outside) == Read(strict, rest, Entered(t))
  {
    var h := OpenTag(t) + rest;
    assert OpenTag(t) <= h && h[1] == OpenTag(t)[1];
    assert OpenTag(Pre)[1] == 'p' && OpenTag(Code)[1] == 'c' && OpenTag(B)[1] == 'b';
    assert OpenTag(S)[1] == 's' && OpenTag(I)[1] == 'i' && OpenTag(A)[1] == 'a';
    assert Opening(h) == Some(t);
    assert h[|OpenTag(t)|..] == rest;
    BeforeNothing(Read(strict, rest, Entered(t)));
  }

  lemma ReadClosing(strict: bool, at: Place, rest: string)
    requires at.Within?
    ensures Read(strict, CloseTag(at.tag) + rest, at) == Before([Closed(at)], Read(strict, rest, Outside))
  {
    var h := CloseTag(at.tag) + rest;
    assert CloseTag(at.tag) <= h;
    assert h[|CloseTag(at.tag)|..] == rest;
  }

  lemma ReadBody(strict: bool, t: Tag, url: string, text: string, rest: string)
    ensures Read(strict, Escape(text) + (CloseTag(t) + rest), Within(t, url, ""))
            == Before([Closed(Within(t, url, text))], Read(strict, rest, Outside))
  {
    ReadText(strict, text, Within(t, url, ""), CloseTag(t) + rest);
    assert "" + text == text;
    ReadClosing(strict, Within(t, url, text), rest);
  }

  lemma ElementPieces(t: Tag, content: string, rest: string)
    ensures Render(Element(t, content)) + rest == OpenTag(t) + (Escape(content) + (CloseTag(t) + rest))
  {
    EscapeIsOnePass(content);
  }

  lemma ReadElement(strict: bool, t: Tag, content: string, rest: string)
    requires !t.A?
    ensures Read(strict, Render(Element(t, content)) + rest, Outside)
            == Before([Element(t, content)], Read(strict, rest, Outside))
  {
    ElementPieces(t, content, rest);
    ReadOpening(strict, t, Escape(content) + (CloseTag(t) + rest));
    ReadBody(strict, t, "", content, rest);
  }

  lemma ReadAddressEnd(strict: bool, url: string, rest: string)
    ensures Read(strict, "\">" + rest, Address(url)) == Read(strict, rest, Within(A, url, ""))
  {
    var h := "\">" + rest;
    assert "\">" <= h && h[2..] == rest;
    BeforeNothing(Read(strict, rest, Within(A, url, "")));
  }

  lemma ReadLinkAddress(strict: bool, url: string, body: string)
    requires strict ==> '"' !in url
    ensures Read(strict, Escape(url) + ("\">" + body), Address("")) == Read(strict, body, Within(A, url, ""))
  {
    ReadText(strict, url, Address(""), "\">" + body);
    assert "" + url == url;
    ReadAddressEnd(strict, url, body);
  }

  lemma LinkPieces(url: string, text: string, rest: string)
    ensures Render(Link(url, text)) + rest
            == OpenTag(A) + (Escape(url) + ("\">" + (Escape(text) + (CloseTag(A) + rest))))
  {
    EscapeIsOnePass(url);
    EscapeIsOnePass(text);
  }

  lemma ReadLink(strict: bool, url: string, text: string, rest: string)
    requires strict ==> '"' !in url
    ensures Read(strict, Render(Link(url, text)) + rest, Outside)
            == Before([Link(url, text)], Read(strict, rest, Outside))
  {
    var body := Escape(text) + (CloseTag(A) + rest);
    LinkPieces(url, text, rest);
    ReadOpening(strict, A, Escape(url) + ("\">" + body));
    ReadLinkAddress(strict, url, body);
    ReadBody(strict, A, url, text, rest);
  }

  // A double quote in an address stops the strict reader there.
  lemma {:induction false} QuoteStops(t: string, url: string, body: string)
    requires '"' in t
    ensures Read(true, Escape(t) + ("\">" + body), Address(url)) == None
    decreases |t|
  {
    var rest := "\">" + body;
    var tail := Escape(t[1..]) + rest;
    var h := Escape(t) + rest;
    assert h == EscapeChar(t[0]) + tail;
    EscapeStart(t[1..], rest);
    if t[0] == '"' {
      assert h[0] == '"' && h[1] == tail[0];
      AddressGoesOn(h, url);
    } else {
      ReadChar(true, t[0], Address(url), tail);
      QuoteStops(t[1..], url + [t[0]], body);
    }
  }

  lemma LinkIsRefused(url: string, text: string, rest: string)
    requires '"' in url
    ensures Read(true, Render(Link(url, text)) + rest, Outside) == None
  {
    var body := Escape(text) + (CloseTag(A) + rest);
    LinkPieces(url, text, rest);
    ReadOpening(true, A, Escape(url) + ("\">" + body));
    QuoteStops(url, "", body);
  }

  predicate QuoteFree(g: Segment) {
    g.Link? ==> '"' !in g.url
  }

  predicate AllQuoteFree(gs: seq<Segment>) {
    forall i :: 0 <= i < |gs| ==> QuoteFree(gs[i])
  }

  // The scanner never wraps text in a link element without an address.
  predicate Proper(g: Segment) {
    g.Element? ==> !g.tag.A?
  }

  lemma ReadSegment(strict: bool, g: Segment, rest: string)
    requires Proper(g) && (strict ==> QuoteFree(g))
    ensures Read(strict, Render(g) + rest, Outside) == Before([g], Read(strict, rest, Outside))
  {
    match g
    case Plain(c) => ReadChar(strict, c, Outside, rest);
    case Element(t, content) => ReadElement(strict, t, content, rest);
    case Link(url, text) => ReadLink(strict, url, text, rest);
  }

  lemma ReadInFront(strict: bool, g: Segment, gs: seq<Segment>)
    requires Proper(g)
    ensures Read(strict, RenderAll([g] + gs), Outside)
            == if strict && !QuoteFree(g) then None else Before([g], Read(strict, RenderAll(gs), Outside))
  {
    assert ([g] + gs)[1..] == gs;
    if strict && !QuoteFree(g) {
      LinkIsRefused(g.url, g.text, RenderAll(gs));
    } else {
      ReadSegment(strict, g, RenderAll(gs));
    }
  }

  lemma {:induction false} ReadSegments(strict: bool, gs: seq<Segment>)
    requires forall i :: 0 <= i < |gs| ==> Proper(gs[i])
    ensures Read(strict, RenderAll(gs), Outside) == if strict && !AllQuoteFree(gs) then None else Some(gs)
  {
    if gs != [] {
      ReadSegments(strict, gs[1..]);
      QuoteFreeCons(gs);
      assert [gs[0]] + gs[1..] == gs;
      ReadInFront(strict, gs[0], gs[1..]);
    }
  }

  lemma QuoteFreeCons(gs: seq<Segment>)
    requires gs != []
    ensures AllQuoteFree(gs) <==> QuoteFree(gs[0]) && AllQuoteFree(gs[1..])
  {
    assert forall i :: 1 <= i < |gs| ==> gs[i] == gs[1..][i - 1];
  }

  function Visible(g: Segment): string {
    match g
    case Plain(c) => [c]
    case Element(_, content) => content
    case Link(_, text) => text
  }

  function VisibleAll(gs: seq<Segment>): string {
    if gs == [] then "" else Visible(gs[0]) + VisibleAll(gs[1..])
  }

  lemma TokenIsProper(s: string, i: nat)
    requires i < |s|
    ensures Proper(Token(s, i).0)
  {
  }

  lemma {:induction false} SegmentsAreProper(s: string, i: nat)
    requires i <= |s|
    ensures forall k :: 0 <= k < |Segments(s, i)| ==> Proper(Segments(s, i)[k])
    decreases |s| - i
  {
    if i < |s| {
      TokenIsProper(s, i);
      SegmentsAreProper(s, Token(s, i).1);
    }
  }

  // -------------------------------------------------------------------------
  // The text shown is text of the message
  // -------------------------------------------------------------------------

  // `t` can be had from `s` by deleting characters.
  predicate Subsequence(t: string, s: string) {
    if t == "" then true
    else if s == "" then false
    else if t[0] == s[0] then Subsequence(t[1..], s[1..])
    else Subsequence(t, s[1..])
  }

  lemma {:induction false} SubsequenceSkip(t: string, s: string)
    requires s != "" && Subsequence(t, s[1..])
    ensures Subsequence(t, s)
    decreases |s| + |t|
  {
    if t != "" && t[0] == s[0] {
      DropHead(t, s[1..]);
    }
  }

  lemma {:induction false} DropHead(t: string, s: string)
    requires t != "" && Subsequence(t, s)
    ensures Subsequence(t[1..], s)
    decreases |s| + |t|
  {
    if t[0] != s[0] {
      DropHead(t, s[1..]);
    }
    SubsequenceSkip(t[1..], s);
  }

  lemma {:induction false} SubsequenceSkipMany(t: string, s: string, k: nat)
    requires k <= |s| && Subsequence(t, s[k..])
    ensures Subsequence(t, s)
    decreases k
  {
    if k > 0 {
      assert s[1..][k - 1..] == s[k..];
      SubsequenceSkipMany(t, s[1..], k - 1);
      SubsequenceSkip(t, s);
    } else {
      assert s[0..] == s;
    }
  }

  lemma {:induction false} SubsequenceCommon(p: string, t: string, s: string)
    requires Subsequence(t, s)
    ensures Subsequence(p + t, p + s)
  {
    if p == "" {
      assert p + t == t && p + s == s;
    } else {
      assert (p + t)[1..] == p[1..] + t && (p + s)[1..] == p[1..] + s;
      SubsequenceCommon(p[1..], t, s);
    }
  }

  // A piece of `s` between `a` and `b`, then a subsequence of what follows `c`.
  lemma PieceThenRest(s: string, i: nat, a: nat, b: nat, c: nat, t: string)
    requires i <= a <= b <= c <= |s| && Subsequence(t, s[c..])
    ensures Subsequence(s[a..b] + t, s[i..])
  {
    assert s[b..][c - b..] == s[c..];
    SubsequenceSkipMany(t, s[b..], c - b);
    SubsequenceCommon(s[a..b], t, s[b..]);
    assert s[a..b] + s[b..] == s[a..];
    assert s[i..][a - i..] == s[a..];
    SubsequenceSkipMany(s[a..b] + t, s[i..], a - i);
  }

  // The segment shows the input from `a` to `b`, between its start and the next segment's.
  predicate Shows(s: string, i: nat, r: (Segment, nat), a: nat, b: nat) {
    i <= a <= b <= r.1 && b <= |s| && Visible(r.0) == s[a..b]
  }

  lemma SpanShows(s: string, i: nat, tag: Tag, width: nat, stop: Stop) returns (a: nat, b: nat)
    requires 0 < width && i + width <= |s|
    ensures Shows(s, i, Span(s, i, tag, width, stop), a, b)
  {
    a, b := i + width, Seek(stop, s, i + width);
  }

  lemma FenceShows(s: string, i: nat) returns (a: nat, b: nat)
    requires Fence(s, i)
    ensures Shows(s, i, FenceAt(s, i), a, b)
  {
    var tag := Seek(AtLineOrTick, s, i + 3);
    a := if tag < |s| && s[tag] == '\n' then tag + 1 else tag;
    b := Seek(AtFence, s, a);
  }

  lemma LinkShows(s: string, i: nat) returns (a: nat, b: nat)
    requires i < |s| && LinkAt(s, i).Some?
    ensures Shows(s, i, LinkAt(s, i).value, a, b)
  {
    a, b := i + 1, Seek(At(']'), s, i + 1);
  }

  lemma HeaderShows(s: string, i: nat) returns (a: nat, b: nat)
    requires i < |s| && s[i] == '#'
    ensures Shows(s, i, HeaderAt(s, i), a, b)
  {
    a := Seek(Past(' '), s, Seek(Past('#'), s, i));
    b := Seek(At('\n'), s, a);
  }

  // The visible text of a segment is a piece of the input.
  lemma TokenShows(s: string, i: nat) returns (a: nat, b: nat)
    requires i < |s|
    ensures Shows(s, i, Token(s, i), a, b)
  {
    if Fence(s, i) {
      a, b := FenceShows(s, i);
    } else if s[i] == '`' {
      a, b := SpanShows(s, i, Code, 1, At('`'));
    } else if Pair(s, i, '*') {
      a, b := SpanShows(s, i, B, 2, AtPair('*'));
    } else if Pair(s, i, '~') {
      a, b := SpanShows(s, i, S, 2, AtPair('~'));
    } else if s[i] == '*' {
      a, b := SpanShows(s, i, I, 1, At('*'));
    } else if LinkAt(s, i).Some? {
      a, b := LinkShows(s, i);
    } else if s[i] == '#' && (i == 0 || s[i - 1] == '\n') {
      a, b := HeaderShows(s, i);
    } else {
      a, b := i, i + 1;
    }
  }

  lemma {:induction false} ShownTextIsSubsequence(s: string, i: nat)
    requires i <= |s|
    ensures Subsequence(VisibleAll(Segments(s, i)), s[i..])
    decreases |s| - i
  {
    if i < |s| {
      var next := Token(s, i).1;
      ShownTextIsSubsequence(s, next);
      var a, b := TokenShows(s, i);
      PieceThenRest(s, i, a, b, next, VisibleAll(Segments(s, next)));
      assert Segments(s, i)[1..] == Segments(s, next);
    }
  }

  // For every input the output is well-formed and read back segment by segment, and the text it shows
  // is the input with characters deleted; the strict reader accepts it exactly when no link has a double
  // quote in its address.
  lemma OutputIsWellFormed(s: string)
    ensures
      var gs := Segments(s, 0);
      && Read(false, RenderAll(gs), Outside) == Some(gs)
      && Read(true, RenderAll(gs), Outside) == (if AllQuoteFree(gs) then Some(gs) else None)
      && Subsequence(VisibleAll(gs), s)
  {
    SegmentsAreProper(s, 0);
    ReadSegments(false, Segments(s, 0));
    ReadSegments(true, Segments(s, 0));
    ShownTextIsSubsequence(s, 0);
    assert s[0..] == s;
  }

  // -------------------------------------------------------------------------
  // The documented constructs
  // -------------------------------------------------------------------------

  // A search in `head + x + tail` from the start of an `x` in which it cannot stop ends right behind `x`.
  lemma SeekOver(stop: Stop, s: string, i: nat, j: nat)
    requires i <= j <= |s| && Halted(stop, s, j)
    requires forall k :: i <= k < j ==> !Halted(stop, s, k)
    ensures Seek(stop, s, i) == j
  {
  }

  lemma SpanIsElement(p: string, tag: Tag, mark: string, stop: Stop, x: string, rest: string)
    requires |mark| == 1 || |mark| == 2
    requires stop == (if |mark| == 1 then At(mark[0]) else AtPair(mark[0]))
    requires forall k :: 0 <= k < |mark| ==> mark[k] == mark[0]
    requires mark[0] !in x
    ensures Span(p + mark + x + mark + rest, |p|, tag, |mark|, stop) == (Element(tag, x), |p| + |x| + 2 * |mark|)
  {
    var s := p + mark + x + mark + rest;
    var n := |p| + |mark|;
    assert forall k :: n <= k < n + |x| ==> s[k] == x[k - n];
    assert s[n + |x|] == mark[0] && s[n + |x| + |mark| - 1] == mark[0];
    SeekOver(stop, s, n, n + |x|);
    assert s[n..n + |x|] == x;
  }

  lemma BoldMarks(p: string, x: string, rest: string)
    requires '*' !in x
    ensures Token(p + "**" + x + "**" + rest, |p|) == (Element(B, x), |p| + |x| + 4)
  {
    SpanIsElement(p, B, "**", AtPair('*'), x, rest);
    Opens(p, "**", x + "**" + rest, p + "**" + x + "**" + rest);
  }

  lemma StrikeMarks(p: string, x: string, rest: string)
    requires '~' !in x
    ensures Token(p + "~~" + x + "~~" + rest, |p|) == (Element(S, x), |p| + |x| + 4)
  {
    SpanIsElement(p, S, "~~", AtPair('~'), x, rest);
    Opens(p, "~~", x + "~~" + rest, p + "~~" + x + "~~" + rest);
  }

  // Bold, strikethrough, italic and code, each around text without its own mark, behind any text.
  lemma DoubleMarks(p: string, x: string, rest: string)
    ensures '*' !in x ==> Token(p + "**" + x + "**" + rest, |p|) == (Element(B, x), |p| + |x| + 4)
    ensures '~' !in x ==> Token(p + "~~" + x + "~~" + rest, |p|) == (Element(S, x), |p| + |x| + 4)
  {
    if '*' !in x {
      BoldMarks(p, x, rest);
    }
    if '~' !in x {
      StrikeMarks(p, x, rest);
    }
  }

  // The mark stands right behind `p`.
  lemma Opens(p: string, mark: string, rest: string, s: string)
    requires s == p + mark + rest
    ensures forall k :: 0 <= k < |mark| ==> s[|p| + k] == mark[k]
    ensures rest != "" ==> s[|p| + |mark|] == rest[0]
  {
  }

  lemma SingleMarks(p: string, x: string, rest: string)
    requires x != ""
    ensures '*' !in x ==> Token(p + "*" + x + "*" + rest, |p|) == (Element(I, x), |p| + |x| + 2)
    ensures '`' !in x ==> Token(p + "`" + x + "`" + rest, |p|) == (Element(Code, x), |p| + |x| + 2)
  {
    if '*' !in x {
      SpanIsElement(p, I, "*", At('*'), x, rest);
      Opens(p, "*", x + "*" + rest, p + "*" + x + "*" + rest);
    }
    if '`' !in x {
      SpanIsElement(p, Code, "`", At('`'), x, rest);
      Opens(p, "`", x + "`" + rest, p + "`" + x + "`" + rest);
    }
  }

  // `x` stands in `s` from `i` on.
  predicate StandsAt(x: string, s: string, i: nat) {
    i + |x| <= |s| && forall k :: i <= k < i + |x| ==> s[k] == x[k - i]
  }

  lemma StandsBehind(p: string, x: string, rest: string)
    ensures StandsAt(x, p + x + rest, |p|)
  {
  }

  lemma StandsWhole(x: string, s: string, i: nat)
    requires StandsAt(x, s, i)
    ensures s[i..i + |x|] == x
  {
  }

  // A search for `c` from the start of an `x` without it, with `c` behind it.
  lemma SeekPastText(c: char, x: string, s: string, i: nat)
    requires StandsAt(x, s, i) && c !in x && i + |x| < |s| && s[i + |x|] == c
    ensures Seek(At(c), s, i) == i + |x|
  {
    SeekOver(At(c), s, i, i + |x|);
  }

  lemma FenceToken(s: string, i: nat, lang: string, x: string)
    requires StandsAt("```", s, i) && StandsAt(lang + "\n", s, i + 3)
    requires StandsAt(x, s, i + 4 + |lang|) && StandsAt("```", s, i + 4 + |lang| + |x|)
    requires '\n' !in lang && '`' !in lang && '`' !in x
    ensures Token(s, i) == (Element(Pre, x), i + |lang| + |x| + 7)
  {
    var a := i + 3 + |lang|;
    var b := a + 1 + |x|;
    assert forall k :: i + 3 <= k < a ==> s[k] == lang[k - i - 3];
    assert s[a] == '\n';
    SeekOver(AtLineOrTick, s, i + 3, a);
    SeekOver(AtFence, s, a + 1, b);
    StandsWhole(x, s, a + 1);
  }

  lemma FenceLayout(p: string, lang: string, x: string, rest: string, s: string)
    requires s == p + "```" + lang + "\n" + x + "```" + rest
    ensures StandsAt("```", s, |p|) && StandsAt(lang + "\n", s, |p| + 3)
    ensures StandsAt(x, s, |p| + 4 + |lang|) && StandsAt("```", s, |p| + 4 + |lang| + |x|)
  {
    assert s == p + "```" + (lang + "\n" + x + "```" + rest);
    assert s == p + "```" + (lang + "\n") + (x + "```" + rest);
    assert s == p + "```" + lang + "\n" + x + ("```" + rest);
    StandsBehind(p, "```", lang + "\n" + x + "```" + rest);
    StandsBehind(p + "```", lang + "\n", x + "```" + rest);
    StandsBehind(p + "```" + lang + "\n", x, "```" + rest);
    StandsBehind(p + "```" + lang + "\n" + x, "```", rest);
  }

  // A fenced block, whose language tag is dropped.
  lemma FenceConstruct(p: string, lang: string, x: string, rest: string)
    requires '\n' !in lang && '`' !in lang && '`' !in x
    ensures Token(p + "```" + lang + "\n" + x + "```" + rest, |p|) == (Element(Pre, x), |p| + |lang| + |x| + 7)
  {
    FenceLayout(p, lang, x, rest, p + "```" + lang + "\n" + x + "```" + rest);
    FenceToken(p + "```" + lang + "\n" + x + "```" + rest, |p|, lang, x);
  }

  function Hashes(n: nat): (h: string)
    ensures |h| == n && forall k :: 0 <= k < n ==> h[k] == '#'
  {
    seq(n, i => '#')
  }

  // `n` hashes, a space, `x` and a line feed stand at `i`, at the start of a line.
  predicate HeaderStands(s: string, i: nat, n: nat, x: string) {
    && i + n + 1 + |x| < |s| && (i > 0 ==> s[i - 1] == '\n')
    && (forall k :: i <= k < i + n ==> s[k] == '#')
    && s[i + n] == ' ' && StandsAt(x, s, i + n + 1) && s[i + n + 1 + |x|] == '\n'
  }

  lemma HeaderToken(s: string, i: nat, n: nat, x: string)
    requires n > 0 && HeaderStands(s, i, n, x)
    requires '\n' !in x && (x != "" ==> x[0] != ' ')
    ensures Token(s, i) == (Element(B, x), i + n + 1 + |x|)
  {
    var h := i + n;
    SeekOver(Past('#'), s, i, h);
    assert !Halted(Past(' '), s, h);
    assert x != "" ==> s[h + 1] == x[0];
    SeekOver(Past(' '), s, h, h + 1);
    SeekPastText('\n', x, s, h + 1);
    StandsWhole(x, s, h + 1);
  }

  lemma HeaderLayout(p: string, n: nat, x: string, rest: string, s: string)
    requires (p == "" || p[|p| - 1] == '\n') && s == p + Hashes(n) + " " + x + "\n" + rest
    ensures HeaderStands(s, |p|, n, x)
  {
    var hashes := Hashes(n);
    assert s == p + hashes + " " + x + ("\n" + rest);
    StandsBehind(p + hashes + " ", x, "\n" + rest);
    assert forall k :: |p| <= k < |p| + n ==> s[k] == hashes[k - |p|];
    assert p != "" ==> s[|p| - 1] == p[|p| - 1];
  }

  // A header line, shown in bold, at the start of any line.
  lemma HeaderConstruct(p: string, n: nat, x: string, rest: string)
    requires p == "" || p[|p| - 1] == '\n'
    requires n > 0 && '\n' !in x && (x != "" ==> x[0] != ' ')
    ensures Token(p + Hashes(n) + " " + x + "\n" + rest, |p|) == (Element(B, x), |p| + n + 1 + |x|)
  {
    HeaderLayout(p, n, x, rest, p + Hashes(n) + " " + x + "\n" + rest);
    HeaderToken(p + Hashes(n) + " " + x + "\n" + rest, |p|, n, x);
  }

  lemma LinkToken(s: string, i: nat, text: string, url: string)
    requires i < |s| && s[i] == '[' && StandsAt(text, s, i + 1) && StandsAt("](", s, i + 1 + |text|)
    requires StandsAt(url, s, i + 3 + |text|) && StandsAt(")", s, i + 3 + |text| + |url|)
    requires ']' !in text && ')' !in url
    ensures Token(s, i) == (Link(url, text), i + |text| + |url| + 4)
  {
    SeekPastText(']', text, s, i + 1);
    SeekPastText(')', url, s, i + 3 + |text|);
    StandsWhole(text, s, i + 1);
    StandsWhole(url, s, i + 3 + |text|);
  }

  lemma LinkLayout(p: string, text: string, url: string, rest: string, s: string)
    requires s == p + "[" + text + "](" + url + ")" + rest
    ensures |p| < |s| && s[|p|] == '[' && StandsAt(text, s, |p| + 1) && StandsAt("](", s, |p| + 1 + |text|)
    ensures StandsAt(url, s, |p| + 3 + |text|) && StandsAt(")", s, |p| + 3 + |text| + |url|)
  {
    assert s == p + "[" + text + ("](" + url + ")" + rest);
    assert s == p + "[" + text + "](" + (url + ")" + rest);
    assert s == p + "[" + text + "](" + url + (")" + rest);
    StandsBehind(p + "[", text, "](" + url + ")" + rest);
    StandsBehind(p + "[" + text, "](", url + ")" + rest);
    StandsBehind(p + "[" + text + "](", url, ")" + rest);
    StandsBehind(p + "[" + text + "](" + url, ")", rest);
  }

  lemma LinkConstruct(p: string, text: string, url: string, rest: string)
    requires ']' !in text && ')' !in url
    ensures Token(p + "[" + text + "](" + url + ")" + rest, |p|) == (Link(url, text), |p| + |text| + |url| + 4)
  {
    LinkLayout(p, text, url, rest, p + "[" + text + "](" + url + ")" + rest);
    LinkToken(p + "[" + text + "](" + url + ")" + rest, |p|, text, url);
  }

  // Text without any mark is passed on unchanged but for the escapes.
  predicate Unmarked(s: string) {
    forall i :: 0 <= i < |s| ==> s[i] !in "`*~[#"
  }

  lemma UnmarkedIsPlain(s: string, i: nat)
    requires Unmarked(s) && i < |s|
    ensures Token(s, i) == (Plain(s[i]), i + 1)
  {
    assert s[i] !in "`*~[#";
    assert '`' in "`*~[#" && '*' in "`*~[#" && '~' in "`*~[#" && '[' in "`*~[#" && '#' in "`*~[#";
  }

  function Plains(t: string): seq<Segment> {
    if t == "" then [] else [Plain(t[0])] + Plains(t[1..])
  }

  lemma {:induction false} PlainsRender(t: string)
    ensures RenderAll(Plains(t)) == Escape(t)
  {
    if t != "" {
      PlainsRender(t[1..]);
      assert Plains(t)[1..] == Plains(t[1..]);
    }
  }

  lemma UnmarkedSegments(s: string, i: nat)
    requires Unmarked(s) && i < |s|
    ensures Segments(s, i) == [Plain(s[i])] + Segments(s, i + 1)
  {
    UnmarkedIsPlain(s, i);
  }

  lemma {:induction false} UnmarkedIsPlains(s: string, i: nat)
    requires Unmarked(s) && i <= |s|
    ensures Segments(s, i) == Plains(s[i..])
    decreases |s| - i
  {
    if i < |s| {
      UnmarkedSegments(s, i);
      UnmarkedIsPlains(s, i + 1);
      assert s[i..][1..] == s[i + 1..];
    }
  }

  lemma PlainTextIsKept(s: string)
    requires Unmarked(s)
    ensures RenderAll(Segments(s, 0)) == Escape(s)
  {
    UnmarkedIsPlains(s, 0);
    assert s[0..] == s;
    PlainsRender(s);
  }

  // -------------------------------------------------------------------------
  // Addresses
  // -------------------------------------------------------------------------

  // An attribute value ends at the first double quote.
  function UpToQuote(h: string): string {
    if h == "" || h[0] == '"' then "" else [h[0]] + UpToQuote(h[1..])
  }

  lemma {:induction false} UpToQuoteOf(a: string, rest: string)
    requires '"' !in a && rest != "" && rest[0] == '"'
    ensures UpToQuote(a + rest) == a
  {
    if a == "" {
      assert a + rest == rest;
    } else {
      assert (a + rest)[0] == a[0] && (a + rest)[1..] == a[1..] + rest;
      UpToQuoteOf(a[1..], rest);
    }
  }

  lemma {:induction false} UpToQuoteIsShort(a: string, rest: string)
    requires '"' in a
    ensures |UpToQuote(a + rest)| < |a|
  {
    assert (a + rest)[0] == a[0] && (a + rest)[1..] == a[1..] + rest;
    if a[0] != '"' {
      UpToQuoteIsShort(a[1..], rest);
    }
  }

  lemma {:induction false} EscapeKeepsQuotes(s: string)
    ensures '"' in Escape(s) <==> '"' in s
  {
    if s != "" {
      EscapeKeepsQuotes(s[1..]);
      assert '"' in EscapeChar(s[0]) <==> s[0] == '"';
      assert s == [s[0]] + s[1..];
    }
  }

  lemma BehindTheTag(url: string, text: string)
    ensures Render(Link(url, text))[|OpenTag(A)|..] == HtmlEscape(url) + ("\">" + HtmlEscape(text) + CloseTag(A))
  {
  }

  // Quotes are not escaped: the address read from a link is the written one exactly when it has no quote.
  lemma AddressIsKept(url: string, text: string)
    ensures
      var behind := Render(Link(url, text))[|OpenTag(A)|..];
      UpToQuote(behind) == HtmlEscape(url) <==> '"' !in url
  {
    EscapeIsOnePass(url);
    EscapeKeepsQuotes(url);
    var rest := "\">" + HtmlEscape(text) + CloseTag(A);
    BehindTheTag(url, text);
    if '"' in url {
      UpToQuoteIsShort(Escape(url), rest);
    } else {
      UpToQuoteOf(Escape(url), rest);
    }
  }

  // Every link with such an address is a message whose output the strict reader refuses.
  lemma QuotedAddressIsRefused(text: string, url: string)
    requires ']' !in text && ')' !in url && '"' in url
    ensures Read(true, RenderAll(Segments("[" + text + "](" + url + ")", 0)), Outside) == None
  {
    var s := "[" + text + "](" + url + ")";
    assert s == "" + "[" + text + "](" + url + ")" + "";
    LinkConstruct("", text, url, "");
    assert Segments(s, |s|) == [];
    assert Segments(s, 0) == [Link(url, text)];
    OutputIsWellFormed(s);
    assert !QuoteFree(Segments(s, 0)[0]);
  }

  // -------------------------------------------------------------------------
  // The characters that go out
  // -------------------------------------------------------------------------

  // The characters that mean something to the reader are spelled out, all others pass.
  lemma EscapedCharacters(c: char)
    ensures HtmlEscape([c]) ==
            if c == '&' then ['&', 'a', 'm', 'p', ';']
            else if c == '<' then ['&', 'l', 't', ';']
            else if c == '>' then ['&', 'g', 't', ';']
            else [c]
  {
    EscapeIsOnePass([c]);
    assert [c][1..] == "";
    assert EscapeChar(c) + "" == EscapeChar(c);
  }

  lemma {:induction false} EscapeAppend(a: string, b: string)
    ensures Escape(a + b) == Escape(a) + Escape(b)
  {
    if a == "" {
      assert a + b == b;
    } else {
      assert (a + b)[0] == a[0] && (a + b)[1..] == a[1..] + b;
      EscapeAppend(a[1..], b);
      Reassociate(EscapeChar(a[0]), Escape(a[1..]), Escape(b));
    }
  }

  lemma EscapeJoins(a: string, b: string)
    ensures HtmlEscape(a + b) == HtmlEscape(a) + HtmlEscape(b)
  {
    EscapeIsOnePass(a);
    EscapeIsOnePass(b);
    EscapeIsOnePass(a + b);
    EscapeAppend(a, b);
  }

  // The tags of Telegram's HTML, around escaped text.
  lemma RenderedElements(x: string, url: string)
    ensures Render(Element(Pre, x)) == "<pre>" + HtmlEscape(x) + "</pre>"
    ensures Render(Element(Code, x)) == "<code>" + HtmlEscape(x) + "</code>"
    ensures Render(Element(B, x)) == "<b>" + HtmlEscape(x) + "</b>"
    ensures Render(Element(S, x)) == "<s>" + HtmlEscape(x) + "</s>"
    ensures Render(Element(I, x)) == "<i>" + HtmlEscape(x) + "</i>"
    ensures Render(Link(url, x)) == "<a href=\"" + HtmlEscape(url) + "\">" + HtmlEscape(x) + "</a>"
  {
  }

  lemma OneSegment(s: string, g: Segment)
    requires s != "" && Token(s, 0) == (g, |s|)
    ensures RenderAll(Segments(s, 0)) == Render(g)
  {
    assert Segments(s, |s|) == [];
    assert Segments(s, 0) == [g];
    assert RenderAll([]) == "" && Render(g) + "" == Render(g);
    RenderOne(g);
  }

  lemma RenderOne(g: Segment)
    ensures RenderAll([g]) == Render(g)
  {
    assert [g][1..] == [];
  }

  // Whole messages of one construct, from Markdown to HTML.

  lemma BoldMessage(s: string, x: string)
    requires s == "**" + x + "**" && '*' !in x
    ensures RenderAll(Segments(s, 0)) == "<b>" + HtmlEscape(x) + "</b>"
  {
    assert s == "" + "**" + x + "**" + "";
    BoldMarks("", x, "");
    OneSegment(s, Element(B, x));
    RenderedElements(x, "");
  }

  lemma StrikeMessage(s: string, x: string)
    requires s == "~~" + x + "~~" && '~' !in x
    ensures RenderAll(Segments(s, 0)) == "<s>" + HtmlEscape(x) + "</s>"
  {
    assert s == "" + "~~" + x + "~~" + "";
    StrikeMarks("", x, "");
    OneSegment(s, Element(S, x));
    RenderedElements(x, "");
  }

  lemma ItalicMessage(s: string, x: string)
    requires s == "*" + x + "*" && x != "" && '*' !in x
    ensures RenderAll(Segments(s, 0)) == "<i>" + HtmlEscape(x) + "</i>"
  {
    assert s == "" + "*" + x + "*" + "";
    SingleMarks("", x, "");
    OneSegment(s, Element(I, x));
    RenderedElements(x, "");
  }

  lemma CodeMessage(s: string, x: string)
    requires s == "`" + x + "`" && x != "" && '`' !in x
    ensures RenderAll(Segments(s, 0)) == "<code>" + HtmlEscape(x) + "</code>"
  {
    assert s == "" + "`" + x + "`" + "";
    SingleMarks("", x, "");
    OneSegment(s, Element(Code, x));
    RenderedElements(x, "");
  }

  lemma FenceMessage(s: string, lang: string, x: string)
    requires s == "```" + lang + "\n" + x + "```" && '\n' !in lang && '`' !in lang && '`' !in x
    ensures RenderAll(Segments(s, 0)) == "<pre>" + HtmlEscape(x) + "</pre>"
  {
    assert s == "" + "```" + lang + "\n" + x + "```" + "";
    FenceLayout("", lang, x, "", s);
    FenceToken(s, 0, lang, x);
    OneSegment(s, Element(Pre, x));
    RenderedElements(x, "");
  }

  lemma LinkMessage(s: string, text: string, url: string)
    requires s == "[" + text + "](" + url + ")" && ']' !in text && ')' !in url
    ensures RenderAll(Segments(s, 0)) == "<a href=\"" + HtmlEscape(url) + "\">" + HtmlEscape(text) + "</a>"
  {
    assert s == "" + "[" + text + "](" + url + ")" + "";
    LinkLayout("", text, url, "", s);
    LinkToken(s, 0, text, url);
    OneSegment(s, Link(url, text));
    RenderedElements(text, url);
  }

  lemma TwoSegments(s: string, g: Segment, m: nat, h: Segment)
    requires 0 < m < |s| && Token(s, 0) == (g, m) && Token(s, m) == (h, |s|)
    ensures RenderAll(Segments(s, 0)) == Render(g) + Render(h)
  {
    assert Segments(s, |s|) == [];
    assert Segments(s, m) == [h];
    assert Segments(s, 0) == [g] + [h];
    RenderPair(g, h);
  }

  lemma LineFeedIsPlain(s: string, m: nat)
    requires m < |s| && s[m] == '\n'
    ensures Token(s, m) == (Plain('\n'), m + 1)
  {
  }

  lemma HeaderAtFront(s: string, n: nat, x: string)
    requires s == Hashes(n) + " " + x + "\n"
    ensures HeaderStands(s, 0, n, x) && |s| == n + 2 + |x| && s[|s| - 1] == '\n'
  {
    assert s == "" + Hashes(n) + " " + x + "\n" + "";
    HeaderLayout("", n, x, "", s);
  }

  // A header line and its line feed.
  lemma HeaderMessage(s: string, n: nat, x: string)
    requires n > 0 && '\n' !in x && (x != "" ==> x[0] != ' ')
    requires s == Hashes(n) + " " + x + "\n"
    ensures RenderAll(Segments(s, 0)) == "<b>" + HtmlEscape(x) + "</b>" + "\n"
  {
    HeaderAtFront(s, n, x);
    HeaderToken(s, 0, n, x);
    HeaderLineRenders(s, n, x);
  }

  lemma HeaderLineRenders(s: string, n: nat, x: string)
    requires |s| == n + 2 + |x| && s[|s| - 1] == '\n' && Token(s, 0) == (Element(B, x), |s| - 1)
    ensures RenderAll(Segments(s, 0)) == "<b>" + HtmlEscape(x) + "</b>" + "\n"
  {
    LineFeedIsPlain(s, |s| - 1);
    TwoSegments(s, Element(B, x), |s| - 1, Plain('\n'));
    RenderedElements(x, "");
    assert Render(Plain('\n')) == "\n";
  }

  lemma RenderPair(g: Segment, h: Segment)
    ensures RenderAll([g] + [h]) == Render(g) + Render(h)
  {
    assert ([g] + [h])[1..] == [h];
    RenderOne(h);
  }

  // -------------------------------------------------------------------------
  // Marks that are never closed, or mean nothing where they stand
  // -------------------------------------------------------------------------

  // A single mark takes the rest of the text.
  lemma UnclosedSingle(s: string, i: nat)
    requires i < |s|
    requires s[i] == '*' && (forall k :: i < k < |s| ==> s[k] != '*')
    ensures Token(s, i) == (Element(I, s[i + 1..]), |s|)
  {
    SeekOver(At('*'), s, i + 1, |s|);
    assert s[i + 1..|s|] == s[i + 1..];
  }

  lemma UnclosedCode(s: string, i: nat)
    requires i < |s|
    requires s[i] == '`' && (forall k :: i < k < |s| ==> s[k] != '`')
    ensures Token(s, i) == (Element(Code, s[i + 1..]), |s|)
  {
    SeekOver(At('`'), s, i + 1, |s|);
    assert s[i + 1..|s|] == s[i + 1..];
  }

  // A double mark takes the rest but its last character, a fence all but its last two.
  lemma UnclosedDouble(s: string, i: nat)
    requires i + 2 < |s| && forall k :: i + 2 <= k < |s| ==> s[k] != s[i]
    ensures Pair(s, i, '*') ==> Token(s, i) == (Element(B, s[i + 2..|s| - 1]), |s| - 1)
    ensures Pair(s, i, '~') ==> Token(s, i) == (Element(S, s[i + 2..|s| - 1]), |s| - 1)
  {
    if Pair(s, i, '*') {
      SeekOver(AtPair('*'), s, i + 2, |s| - 1);
    }
    if Pair(s, i, '~') {
      SeekOver(AtPair('~'), s, i + 2, |s| - 1);
    }
  }

  lemma UnclosedFence(s: string, i: nat, lang: string)
    requires Fence(s, i) && i + 6 + |lang| <= |s| && StandsAt(lang + "\n", s, i + 3)
    requires '\n' !in lang && '`' !in lang && forall k :: i + 4 + |lang| <= k < |s| ==> s[k] != '`'
    ensures Token(s, i) == (Element(Pre, s[i + 4 + |lang|..|s| - 2]), |s| - 2)
  {
    var a := i + 3 + |lang|;
    assert forall k :: i + 3 <= k < a ==> s[k] == lang[k - i - 3];
    assert s[a] == '\n';
    SeekOver(AtLineOrTick, s, i + 3, a);
    SeekOver(AtFence, s, a + 1, |s| - 2);
  }

  // A bracket that begins no whole link is text: it is not closed, ...
  lemma BracketUnclosed(s: string, i: nat)
    requires i < |s| && s[i] == '[' && forall k :: i < k < |s| ==> s[k] != ']'
    ensures Token(s, i) == (Plain('['), i + 1)
  {
    SeekOver(At(']'), s, i + 1, |s|);
    assert LinkAt(s, i).None?;
  }

  // ... or no address follows, or the address is not closed.
  lemma BracketWithoutAddress(s: string, i: nat, j: nat)
    requires i < j < |s| && s[i] == '[' && s[j] == ']' && forall k :: i < k < j ==> s[k] != ']'
    requires j + 1 >= |s| || s[j + 1] != '(' || forall k :: j + 2 <= k < |s| ==> s[k] != ')'
    ensures Token(s, i) == (Plain('['), i + 1)
  {
    SeekOver(At(']'), s, i + 1, j);
    if j + 1 < |s| && s[j + 1] == '(' {
      SeekOver(At(')'), s, j + 2, |s|);
    }
    assert LinkAt(s, i).None?;
  }

  // So are a hash inside a line and a single tilde.
  lemma HashAndTildeInText(s: string, i: nat)
    requires i < |s|
    ensures s[i] == '#' && i > 0 && s[i - 1] != '\n' ==> Token(s, i) == (Plain('#'), i + 1)
    ensures s[i] == '~' && (i + 1 == |s| || s[i + 1] != '~') ==> Token(s, i) == (Plain('~'), i + 1)
  {
  }
}
