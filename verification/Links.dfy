/** Slack renders links as `<url>` or `<url|label>`; `StripLinks` keeps the visible text. */
module Links {
  import opened GoStrings

  /** The input around its first link, which shows as `text`. */
  datatype Cut = NoLink | Cut(before: string, text: string, after: string)

  /** What shows of the text between `<` and `>`: the part after the first `|`, if there is one. */
  function InnerText(inner: string): string {
    var pipe := IndexOf(inner, '|');
    if pipe == -1 then inner else inner[pipe + 1..]
  }

  function CutAt(input: string, open: nat, close: nat): (c: Cut)
    requires open + close < |input| && 0 < close
    ensures c.Cut? && |c.after| < |input|
  {
    Cut(input[..open], InnerText(input[open + 1..open + close]), input[open + close + 1..])
  }

  function FirstLink(input: string): (c: Cut)
    ensures c.Cut? ==> |c.after| < |input|
  {
    var open := IndexOf(input, '<');
    if open == -1 then NoLink
    else
      var close := IndexOf(input[open..], '>');
      if close == -1 then NoLink else CutAt(input, open, close)
  }

  /** The input with every link replaced by its text. */
  function Stripped(input: string): string
    decreases |input|
  {
    var c := FirstLink(input);
    if c.NoLink? then input else c.before + c.text + Stripped(c.after)
  }

  method NextLink(input: string) returns (c: Cut)
    ensures c == FirstLink(input)
  {
    var open := IndexOf(input, '<');
    if open == -1 {
      return NoLink;
    }
    var link := input[open..];
    var close := IndexOf(link, '>');
    if close == -1 {
      return NoLink;
    }
    var pipe := IndexOf(link, '|');
    CutText(input, open, close);
    if pipe == -1 || pipe > close {
      return Cut(input[..open], input[open + 1..open + close], input[open + close + 1..]);
    }
    c := Cut(input[..open], input[open + pipe + 1..open + close], input[open + close + 1..]);
  }

  lemma CutText(input: string, open: nat, close: nat)
    requires open + close < |input| && 0 < close && input[open] == '<' && input[open + close] == '>'
    ensures var pipe := IndexOf(input[open..], '|');
            CutAt(input, open, close).text ==
              if pipe == -1 || pipe > close then input[open + 1..open + close] else input[open + pipe + 1..open + close]
  {
    var link := input[open..];
    var pipe := IndexOf(link, '|');
    PipeInLink(link, close);
    assert link[1..close] == input[open + 1..open + close];
    if pipe != -1 && pipe < close {
      assert link[pipe + 1..close] == input[open + pipe + 1..open + close];
    }
  }

  method StripLinks(message: string) returns (result: string)
    ensures result == Stripped(message)
  {
    result := "";
    var input := message;
    while true
      invariant Stripped(message) == result + Stripped(input)
      decreases |input|
    {
      var c := NextLink(input);
      if c.NoLink? {
        return result + input;
      }
      StripCut(input, c.before, c.text, c.after);
      Regroup(result, c.before, c.text, Stripped(c.after));
      result := result + c.before + c.text;
      input := c.after;
    }
  }

  /** Looking for `|` past the link's end does not matter. */
  lemma PipeInLink(link: string, close: nat)
    requires 0 < close < |link| && link[0] == '<' && link[close] == '>'
    ensures var pipe := IndexOf(link, '|');
            && pipe != 0 && pipe != close
            && InnerText(link[1..close]) == if pipe == -1 || pipe > close then link[1..close] else link[pipe + 1..close]
  {
    var pipe := IndexOf(link, '|');
    var inner := link[1..close];
    if pipe == -1 || pipe > close {
      assert '|' !in inner by {
        assert forall i :: 0 <= i < |inner| ==> inner[i] == link[i + 1];
        assert pipe > close ==> forall i :: 0 <= i < pipe ==> link[i] == link[..pipe][i];
      }
    } else {
      assert inner[pipe - 1] == '|';
      assert inner[..pipe - 1] == link[1..pipe];
      assert forall i :: 1 <= i < pipe ==> link[i] == link[..pipe][i];
      IndexOfFirst(inner, '|', pipe - 1);
      assert inner[pipe..] == link[pipe + 1..close];
    }
  }

  lemma Regroup(a: string, b: string, c: string, d: string)
    ensures a + (b + c + d) == (a + b + c) + d
  {
  }

  /** A message as its author sees it. */
  datatype Segment = Plain(text: string) | Link(url: string) | Labelled(url: string, caption: string)

  predicate NoAngles(s: string) {
    '<' !in s && '>' !in s
  }

  predicate Renderable(seg: Segment) {
    match seg
    case Plain(text) => NoAngles(text)
    case Link(url) => NoAngles(url) && '|' !in url
    case Labelled(url, caption) => NoAngles(url) && '|' !in url && NoAngles(caption)
  }

  function RenderOne(seg: Segment): string {
    match seg
    case Plain(text) => text
    case Link(url) => "<" + url + ">"
    case Labelled(url, caption) => "<" + (url + "|" + caption) + ">"
  }

  function Render(message: seq<Segment>): string {
    if message == [] then "" else RenderOne(message[0]) + Render(message[1..])
  }

  function VisibleOne(seg: Segment): string {
    match seg
    case Plain(text) => text
    case Link(url) => url
    case Labelled(_, caption) => caption
  }

  function Visible(message: seq<Segment>): string {
    if message == [] then "" else VisibleOne(message[0]) + Visible(message[1..])
  }

  lemma PlainFirst(text: string, rest: string)
    requires '<' !in text
    ensures var c := FirstLink(rest);
            FirstLink(text + rest) == if c.NoLink? then NoLink else Cut(text + c.before, c.text, c.after)
  {
    IndexOfAfter(text, rest, '<');
    var open := IndexOf(rest, '<');
    if open != -1 {
      assert (text + rest)[|text| + open..] == rest[open..];
      var close := IndexOf(rest[open..], '>');
      if close != -1 {
        ShiftCut(text, rest, open, close);
      }
    }
  }

  lemma ShiftCut(text: string, rest: string, open: nat, close: nat)
    requires open + close < |rest| && 0 < close
    ensures var c := CutAt(rest, open, close);
            CutAt(text + rest, |text| + open, close) == Cut(text + c.before, c.text, c.after)
  {
    var s, n := text + rest, |text|;
    assert s[..n + open] == text + rest[..open];
    assert s[n + open + 1..n + open + close] == rest[open + 1..open + close];
    assert s[n + open + close + 1..] == rest[open + close + 1..];
  }

  lemma StripCut(s: string, before: string, text: string, after: string)
    requires FirstLink(s) == Cut(before, text, after)
    ensures Stripped(s) == before + text + Stripped(after)
  {
  }

  /** Text without `<` stays in front, however the input goes on. */
  lemma StripPlain(text: string, rest: string)
    requires '<' !in text
    ensures Stripped(text + rest) == text + Stripped(rest)
  {
    PlainFirst(text, rest);
    var c := FirstLink(rest);
    if c.Cut? {
      StripCut(rest, c.before, c.text, c.after);
      StripCut(text + rest, text + c.before, c.text, c.after);
      RegroupFront(text, c.before, c.text, Stripped(c.after));
    }
  }

  lemma RegroupFront(a: string, b: string, c: string, d: string)
    ensures a + b + c + d == a + (b + c + d)
  {
  }

  /** A link `<inner>`, where `inner` is a url or `url|label`. */
  lemma LinkFirst(inner: string, rest: string)
    requires NoAngles(inner)
    ensures FirstLink("<" + inner + ">" + rest) == Cut("", InnerText(inner), rest)
  {
    var s := "<" + inner + ">" + rest;
    var close := |inner| + 1;
    assert s[..close] == "<" + inner;
    IndexOfFirst(s, '<', 0);
    assert s[0..] == s;
    IndexOfFirst(s, '>', close);
    assert s[close + 1..] == rest && s[1..close] == inner;
  }

  lemma LabelText(url: string, caption: string)
    requires '|' !in url
    ensures InnerText(url + "|" + caption) == caption
  {
    var s := url + "|" + caption;
    assert s[..|url|] == url;
    IndexOfFirst(s, '|', |url|);
    assert s[|url| + 1..] == caption;
  }

  lemma StripAtOnce(s: string, text: string, after: string)
    requires FirstLink(s) == Cut("", text, after)
    ensures Stripped(s) == text + Stripped(after)
  {
    StripCut(s, "", text, after);
    assert "" + text == text;
  }

  lemma StripLink(inner: string, rest: string)
    requires NoAngles(inner)
    ensures Stripped("<" + inner + ">" + rest) == InnerText(inner) + Stripped(rest)
  {
    LinkFirst(inner, rest);
    StripAtOnce("<" + inner + ">" + rest, InnerText(inner), rest);
  }

  lemma StripSegment(seg: Segment, rest: string)
    requires Renderable(seg)
    ensures Stripped(RenderOne(seg) + rest) == VisibleOne(seg) + Stripped(rest)
  {
    match seg
    case Plain(text) => StripPlain(text, rest);
    case Link(url) => StripLink(url, rest);
    case Labelled(url, caption) =>
      LabelText(url, caption);
      StripLink(url + "|" + caption, rest);
  }

  /** Stripping a rendered message gives exactly its visible text. */
  lemma {:induction false} StripRender(message: seq<Segment>)
    requires forall seg :: seg in message ==> Renderable(seg)
    ensures Stripped(Render(message)) == Visible(message)
  {
    if message != [] {
      StripRender(message[1..]);
      StripSegment(message[0], Render(message[1..]));
    }
  }
}
