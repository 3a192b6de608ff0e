/** The scanner that turns Markdown into Telegram's HTML subset. */
module Markdown {
  import opened Common

  // -------------------------------------------------------------------------
  // Escaping
  // -------------------------------------------------------------------------

  function Replace(s: string, c: char, to: string): string {
    if s == "" then "" else (if s[0] == c then to else [s[0]]) + Replace(s[1..], c, to)
  }

  function HtmlEscape(s: string): string {
    Replace(Replace(Replace(s, '&', "&amp;"), '<', "&lt;"), '>', "&gt;")
  }

  function EscapeChar(c: char): string {
    if c == '&' then "&amp;" else if c == '<' then "&lt;" else if c == '>' then "&gt;" else [c]
  }

  // The one-pass character map.
  function Escape(s: string): string {
    if s == "" then "" else EscapeChar(s[0]) + Escape(s[1..])
  }

  lemma {:induction false} ReplaceAppend(a: string, b: string, c: char, to: string)
    ensures Replace(a + b, c, to) == Replace(a, c, to) + Replace(b, c, to)
  {
    if a == "" {
      assert a + b == b;
    } else {
      assert (a + b)[0] == a[0] && (a + b)[1..] == a[1..] + b;
      ReplaceAppend(a[1..], b, c, to);
    }
  }

  lemma {:induction false} ReplaceAbsent(s: string, c: char, to: string)
    requires c !in s
    ensures Replace(s, c, to) == s
  {
    if s != "" {
      ReplaceAbsent(s[1..], c, to);
    }
  }

  lemma ReplaceOne(c: char, d: char, to: string)
    ensures Replace([c], d, to) == if c == d then to else [c]
  {
    assert [c][1..] == "";
    assert to + "" == to && [c] + "" == [c];
  }

  lemma EscapeOne(c: char)
    ensures HtmlEscape([c]) == EscapeChar(c)
  {
    ReplaceOne(c, '&', "&amp;");
    ReplaceOne(c, '<', "&lt;");
    ReplaceOne(c, '>', "&gt;");
    ReplaceAbsent("&amp;", '<', "&lt;");
    ReplaceAbsent("&amp;", '>', "&gt;");
    ReplaceAbsent("&lt;", '>', "&gt;");
  }

  // The three chained replacements are the one-pass map: no replacement touches an earlier one's output.
  lemma {:induction false} EscapeIsOnePass(s: string)
    ensures HtmlEscape(s) == Escape(s)
  {
    if s != "" {
      var h, t := [s[0]], s[1..];
      assert s == h + t;
      EscapeIsOnePass(t);
      EscapeOne(s[0]);
      ReplaceAppend(h, t, '&', "&amp;");
      ReplaceAppend(Replace(h, '&', "&amp;"), Replace(t, '&', "&amp;"), '<', "&lt;");
      ReplaceAppend(Replace(Replace(h, '&', "&amp;"), '<', "&lt;"),
                    Replace(Replace(t, '&', "&amp;"), '<', "&lt;"), '>', "&gt;");
    }
  }

  // The character at the front of escaped text and the number of characters it takes, if there is one.
  function TextStep(h: string): (r: Option<(char, nat)>)
    ensures r.Some? ==> 0 < r.value.1 <= |h|
  {
    if h == "" || h[0] == '<' || h[0] == '>' then None
    else if h[0] == '&' then
      (if "&amp;" <= h then Some(('&', 5))
       else if "&lt;" <= h then Some(('<', 4))
       else if "&gt;" <= h then Some(('>', 4))
       else None)
    else Some((h[0], 1))
  }

  lemma StepOverChar(c: char, rest: string)
    ensures TextStep(EscapeChar(c) + rest) == Some((c, |EscapeChar(c)|))
    ensures (EscapeChar(c) + rest)[|EscapeChar(c)|..] == rest
    ensures EscapeChar(c)[0] != '<' && EscapeChar(c)[0] != '>'
  {
    var h := EscapeChar(c) + rest;
    assert EscapeChar(c) <= h;
    if c == '&' {
      assert "&amp;" <= h;
    } else if c == '<' {
      assert h[1] == "&lt;"[1] != "&amp;"[1];
    } else if c == '>' {
      assert h[1] == "&gt;"[1] != "&amp;"[1];
    }
  }

  function Unescape(h: string): Option<string>
    decreases |h|
  {
    if h == "" then Some("")
    else
      match TextStep(h)
      case None => None
      case Some(e) =>
        match Unescape(h[e.1..])
        case None => None
        case Some(t) => Some([e.0] + t)
  }

  // Unescaping undoes escaping.
  lemma {:induction false} UnescapeEscape(s: string)
    ensures Unescape(HtmlEscape(s)) == Some(s)
  {
    EscapeIsOnePass(s);
    if s != "" {
      UnescapeEscape(s[1..]);
      EscapeIsOnePass(s[1..]);
      StepOverChar(s[0], Escape(s[1..]));
      assert [s[0]] + s[1..] == s;
    }
  }

  // -------------------------------------------------------------------------
  // Scanning
  // -------------------------------------------------------------------------

  // What an inner loop of the scanner looks for; every loop also stops at the end of the input.
  datatype Stop = At(c: char) | AtPair(c: char) | AtFence | AtLineOrTick | Past(c: char)

  predicate Pair(s: string, i: nat, c: char) {
    i + 1 < |s| && s[i] == c && s[i + 1] == c
  }

  predicate Fence(s: string, i: nat) {
    i + 2 < |s| && s[i] == '`' && s[i + 1] == '`' && s[i + 2] == '`'
  }

  predicate Halted(stop: Stop, s: string, i: nat) {
    i >= |s| ||
    match stop
    case At(c) => s[i] == c
    case AtPair(c) => i + 1 >= |s| || Pair(s, i, c)
    case AtFence => i + 2 >= |s| || Fence(s, i)
    case AtLineOrTick => s[i] == '\n' || s[i] == '`'
    case Past(c) => s[i] != c
  }

  function Seek(stop: Stop, s: string, i: nat): (j: nat)
    requires i <= |s|
    ensures i <= j <= |s| && Halted(stop, s, j)
    ensures forall k :: i <= k < j ==> !Halted(stop, s, k)
    decreases |s| - i
  {
    if Halted(stop, s, i) then i else Seek(stop, s, i + 1)
  }

  datatype Tag = Pre | Code | B | S | I | A

  datatype Segment = Plain(c: char) | Element(tag: Tag, content: string) | Link(url: string, text: string)

  // The link that starts at `i`, with the position after it.
  function LinkAt(s: string, i: nat): (r: Option<(Segment, nat)>)
    requires i < |s|
    ensures r.Some? ==> i < r.value.1 <= |s|
  {
    var j := Seek(At(']'), s, i + 1);
    if s[i] == '[' && j + 1 < |s| && s[j + 1] == '(' then
      var k := Seek(At(')'), s, j + 2);
      if k < |s| then Some((Link(s[j + 2..k], s[i + 1..j]), k + 1)) else None
    else None
  }

  // Text between two delimiters of the same width; a missing closing delimiter ends it where the search ends.
  function Span(s: string, i: nat, tag: Tag, width: nat, stop: Stop): (r: (Segment, nat))
    requires 0 < width && i + width <= |s|
    ensures i < r.1 <= |s|
  {
    var end := Seek(stop, s, i + width);
    (Element(tag, s[i + width..end]), if end + width <= |s| then end + width else end)
  }

  function FenceAt(s: string, i: nat): (r: (Segment, nat))
    requires Fence(s, i)
    ensures i < r.1 <= |s|
  {
    var tag := Seek(AtLineOrTick, s, i + 3);
    var start := if tag < |s| && s[tag] == '\n' then tag + 1 else tag;
    var end := Seek(AtFence, s, start);
    (Element(Pre, s[start..end]), if end + 3 <= |s| then end + 3 else end)
  }

  function HeaderAt(s: string, i: nat): (r: (Segment, nat))
    requires i < |s| && s[i] == '#'
    ensures i < r.1 <= |s|
  {
    HeaderAdvances(s, i);
    var start := Seek(Past(' '), s, Seek(Past('#'), s, i));
    var end := Seek(At('\n'), s, start);
    (Element(B, s[start..end]), end)
  }

  // The segment that starts at `i` and the position where the next one starts.
  function Token(s: string, i: nat): (r: (Segment, nat))
    requires i < |s|
    ensures i < r.1 <= |s|
  {
    if Fence(s, i) then FenceAt(s, i)
    else if s[i] == '`' then Span(s, i, Code, 1, At('`'))
    else if Pair(s, i, '*') then Span(s, i, B, 2, AtPair('*'))
    else if Pair(s, i, '~') then Span(s, i, S, 2, AtPair('~'))
    else if s[i] == '*' then Span(s, i, I, 1, At('*'))
    else if LinkAt(s, i).Some? then LinkAt(s, i).value
    else if s[i] == '#' && (i == 0 || s[i - 1] == '\n') then HeaderAt(s, i)
    else (Plain(s[i]), i + 1)
  }

  lemma HeaderAdvances(s: string, i: nat)
    requires i < |s| && s[i] == '#'
    ensures Seek(Past('#'), s, i) > i
  {
  }

  function Segments(s: string, i: nat): seq<Segment>
    requires i <= |s|
    decreases |s| - i
  {
    if i == |s| then [] else [Token(s, i).0] + Segments(s, Token(s, i).1)
  }

  function OpenTag(t: Tag): string {
    match t
    case Pre => "<pre>"
    case Code => "<code>"
    case B => "<b>"
    case S => "<s>"
    case I => "<i>"
    case A => "<a href=\""
  }

  function CloseTag(t: Tag): string {
    match t
    case Pre => "</pre>"
    case Code => "</code>"
    case B => "</b>"
    case S => "</s>"
    case I => "</i>"
    case A => "</a>"
  }

  function Render(g: Segment): string {
    match g
    case Plain(c) => EscapeChar(c)
    case Element(t, content) => OpenTag(t) + HtmlEscape(content) + CloseTag(t)
    case Link(url, text) => OpenTag(A) + HtmlEscape(url) + "\">" + HtmlEscape(text) + CloseTag(A)
  }

  function RenderAll(gs: seq<Segment>): string {
    if gs == [] then "" else Render(gs[0]) + RenderAll(gs[1..])
  }

  // One inner loop.
  method Scan(stop: Stop, chars: string, from: nat) returns (i: nat)
    requires from <= |chars|
    ensures i == Seek(stop, chars, from)
  {
    i := from;
    while !Halted(stop, chars, i)
      invariant from <= i <= |chars|
      invariant Seek(stop, chars, from) == Seek(stop, chars, i)
      decreases |chars| - i
    {
      i := i + 1;
    }
  }

  method ConvertFence(chars: string, start: nat) returns (html: string, i: nat)
    requires Fence(chars, start)
    ensures html == Render(FenceAt(chars, start).0) && i == FenceAt(chars, start).1
  {
    i := Scan(AtLineOrTick, chars, start + 3);
    if i < |chars| && chars[i] == '\n' {
      i := i + 1;
    }
    var from := i;
    i := Scan(AtFence, chars, i);
    assert FenceAt(chars, start).0 == Element(Pre, chars[from..i]);
    html := "<pre>" + HtmlEscape(chars[from..i]) + "</pre>";
    if i + 2 < |chars| {
      i := i + 3;
    }
  }

  method ConvertSpan(chars: string, start: nat, tag: Tag, width: nat, stop: Stop) returns (html: string, i: nat)
    requires 0 < width && start + width <= |chars|
    ensures html == Render(Span(chars, start, tag, width, stop).0) && i == Span(chars, start, tag, width, stop).1
  {
    i := Scan(stop, chars, start + width);
    html := OpenTag(tag) + HtmlEscape(chars[start + width..i]) + CloseTag(tag);
    if i + width - 1 < |chars| {
      i := i + width;
    }
  }

  method ConvertLink(chars: string, start: nat) returns (r: Option<(string, nat)>)
    requires start < |chars| && chars[start] == '['
    ensures r.Some? == LinkAt(chars, start).Some?
    ensures r.Some? ==> r.value == (Render(LinkAt(chars, start).value.0), LinkAt(chars, start).value.1)
  {
    var j := Scan(At(']'), chars, start + 1);
    if j + 1 < |chars| && chars[j] == ']' && chars[j + 1] == '(' {
      var k := Scan(At(')'), chars, j + 2);
      if k < |chars| {
        var html := "<a href=\"" + HtmlEscape(chars[j + 2..k]) + "\">" + HtmlEscape(chars[start + 1..j]) + "</a>";
        return Some((html, k + 1));
      }
    }
    return None;
  }

  method ConvertHeader(chars: string, start: nat) returns (html: string, i: nat)
    requires start < |chars| && chars[start] == '#'
    ensures html == Render(HeaderAt(chars, start).0) && i == HeaderAt(chars, start).1
  {
    i := Scan(Past('#'), chars, start);
    i := Scan(Past(' '), chars, i);
    var from := i;
    i := Scan(At('\n'), chars, i);
    html := "<b>" + HtmlEscape(chars[from..i]) + "</b>";
  }

  // One iteration of the scanner's loop.
  method ConvertSegment(chars: string, start: nat) returns (html: string, i: nat)
    requires start < |chars|
    ensures html == Render(Token(chars, start).0) && i == Token(chars, start).1
  {
    if start + 2 < |chars| && chars[start] == '`' && chars[start + 1] == '`' && chars[start + 2] == '`' {
      html, i := ConvertFence(chars, start);
      return;
    }
    if chars[start] == '`' {
      html, i := ConvertSpan(chars, start, Code, 1, At('`'));
      return;
    }
    if start + 1 < |chars| && chars[start] == '*' && chars[start + 1] == '*' {
      html, i := ConvertSpan(chars, start, B, 2, AtPair('*'));
      return;
    }
    if start + 1 < |chars| && chars[start] == '~' && chars[start + 1] == '~' {
      html, i := ConvertSpan(chars, start, S, 2, AtPair('~'));
      return;
    }
    if chars[start] == '*' && (start + 1 >= |chars| || chars[start + 1] != '*') {
      html, i := ConvertSpan(chars, start, I, 1, At('*'));
      return;
    }
    if chars[start] == '[' {
      var link := ConvertLink(chars, start);
      if link.Some? {
        return link.value.0, link.value.1;
      }
    }
    if chars[start] == '#' && (start == 0 || chars[start - 1] == '\n') {
      html, i := ConvertHeader(chars, start);
      return;
    }
    html := match chars[start]
      case '&' => "&amp;"
      case '<' => "&lt;"
      case '>' => "&gt;"
      case ch => [ch];
    i := start + 1;
  }

  method MarkdownToTelegramHtml(chars: string) returns (output: string)
    ensures output == RenderAll(Segments(chars, 0))
  {
    output := "";
    var i := 0;
    while i < |chars|
      invariant i <= |chars|
      invariant RenderAll(Segments(chars, 0)) == output + RenderAll(Segments(chars, i))
      decreases |chars| - i
    {
      ghost var rest := RenderAll(Segments(chars, Token(chars, i).1));
      assert RenderAll(Segments(chars, i)) == Render(Token(chars, i).0) + rest by {
        assert Segments(chars, i)[1..] == Segments(chars, Token(chars, i).1);
      }
      var html, next := ConvertSegment(chars, i);
      assert output + (html + rest) == output + html + rest;
      output := output + html;
      i := next;
    }
    assert output + "" == output;
  }
}
