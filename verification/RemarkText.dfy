/** Remark templates as texts with {{TOKEN}} placeholders: finding the tokens and cutting a text along them. */
module RemarkText {

  predicate NameChar(c: char) {
    'A' <= c <= 'Z' || c == '_'
  }

  /** Token names are made of capital letters and underscores. */
  lemma NameCharacters(c: char)
    ensures NameChar(c) <==> 65 <= c as int <= 90 || c as int == 95
  {}

  predicate ValidName(name: string) {
    name != "" && forall i :: 0 <= i < |name| ==> NameChar(name[i])
  }

  /** Token characters at the start of a text. */
  function NameLength(s: string): (n: nat)
    ensures n <= |s| && (forall i :: 0 <= i < n ==> NameChar(s[i])) && (n < |s| ==> !NameChar(s[n]))
  {
    if s == "" || !NameChar(s[0]) then 0 else 1 + NameLength(s[1..])
  }

  function Placeholder(name: string): string {
    "{{" + name + "}}"
  }

  /** The length of the placeholder a text starts with, or 0. */
  function MatchLength(s: string): (m: nat)
    ensures m <= |s| && (m > 0 ==> m > 4 && ValidName(s[2..m - 2]) && s[..m] == Placeholder(s[2..m - 2]))
  {
    if |s| < 2 || s[0] != '{' || s[1] != '{' then 0 else
      var n := NameLength(s[2..]);
      if n > 0 && n + 4 <= |s| && s[n + 2] == '}' && s[n + 3] == '}' then n + 4 else 0
  }

  // ---------- the scan ----------

  /** One step of the leftmost scan: a placeholder, or a character that belongs to none. */
  datatype Item = Tok(name: string) | Chr(c: char)

  function First(s: string): Item
    requires s != ""
  {
    if MatchLength(s) > 0 then Tok(s[2..MatchLength(s) - 2]) else Chr(s[0])
  }

  function Rest(s: string): string
    requires s != ""
  {
    s[if MatchLength(s) > 0 then MatchLength(s) else 1..]
  }

  function Scan(s: string): seq<Item>
    decreases |s|
  {
    if s == "" then [] else [First(s)] + Scan(Rest(s))
  }

  function TextOf(i: Item): string {
    match i
    case Tok(name) => Placeholder(name)
    case Chr(c) => [c]
  }

  function Text(items: seq<Item>): string {
    if items == [] then "" else TextOf(items[0]) + Text(items[1..])
  }

  function Names(items: seq<Item>): seq<string> {
    if items == [] then [] else (if items[0].Tok? then [items[0].name] else []) + Names(items[1..])
  }

  /** The names of the tokens in a text, in order. */
  function TokenNames(s: string): seq<string> {
    Names(Scan(s))
  }

  lemma FirstAndRest(s: string)
    requires s != ""
    ensures s == TextOf(First(s)) + Rest(s)
    ensures First(s).Tok? ==> ValidName(First(s).name)
  {
    var m := MatchLength(s);
    if m > 0 { assert s == s[..m] + s[m..]; }
  }

  /** Scanning loses nothing. */
  lemma {:induction false} TextScan(s: string)
    ensures Text(Scan(s)) == s
    decreases |s|
  {
    if s != "" {
      FirstAndRest(s);
      TextScan(Rest(s));
    }
  }

  /** A text no placeholder can reach into from the left. */
  predicate Solid(b: string) {
    b == "" || (b[0] != '}' && !NameChar(b[0]) && (b[0] == '{' ==> |b| >= 2 && b[1] == '{'))
  }

  lemma {:induction false} NameLengthStops(a: string, b: string)
    requires Solid(b)
    ensures NameLength(a + b) == NameLength(a)
  {
    if a == "" {
      assert a + b == b;
    } else {
      assert (a + b)[0] == a[0] && (a + b)[1..] == a[1..] + b;
      NameLengthStops(a[1..], b);
    }
  }

  lemma NoStraddle(a: string, b: string)
    requires a != "" && Solid(b)
    ensures MatchLength(a + b) == MatchLength(a)
  {
    if |a| == 1 {
      if b != "" && b[0] == '{' && a[0] == '{' {
        assert (a + b)[2..][0] == '{';
      }
    } else {
      assert (a + b)[2..] == a[2..] + b;
      NameLengthStops(a[2..], b);
    }
  }

  lemma FirstStays(a: string, b: string)
    requires a != "" && Solid(b)
    ensures First(a + b) == First(a) && Rest(a + b) == Rest(a) + b
  {
    NoStraddle(a, b);
    var m := MatchLength(a);
    if m > 0 { assert (a + b)[2..m - 2] == a[2..m - 2]; }
  }

  /** Texts that share no placeholder are scanned one after the other. */
  lemma {:induction false} ScanConcat(a: string, b: string)
    requires Solid(b)
    ensures Scan(a + b) == Scan(a) + Scan(b)
    decreases |a|
  {
    if a == "" {
      assert a + b == b;
    } else {
      FirstStays(a, b);
      ScanConcat(Rest(a), b);
    }
  }

  lemma {:induction false} NamesConcat(a: seq<Item>, b: seq<Item>)
    ensures Names(a + b) == Names(a) + Names(b)
  {
    if a == [] {
      assert a + b == b;
    } else {
      assert (a + b)[1..] == a[1..] + b;
      NamesConcat(a[1..], b);
    }
  }

  lemma TokenNamesConcat(a: string, b: string)
    requires Solid(b)
    ensures TokenNames(a + b) == TokenNames(a) + TokenNames(b)
  {
    ScanConcat(a, b);
    NamesConcat(Scan(a), Scan(b));
  }

  lemma {:induction false} NameLengthAll(name: string, b: string)
    requires forall i :: 0 <= i < |name| ==> NameChar(name[i])
    requires b != "" && !NameChar(b[0])
    ensures NameLength(name + b) == |name|
  {
    if name == "" {
      assert name + b == b;
    } else {
      assert (name + b)[1..] == name[1..] + b;
      NameLengthAll(name[1..], b);
    }
  }

  lemma ScanPlaceholder(name: string, b: string)
    requires ValidName(name)
    ensures Scan(Placeholder(name) + b) == [Tok(name)] + Scan(b)
  {
    var s := Placeholder(name) + b;
    assert s[2..] == name + ("}}" + b);
    NameLengthAll(name, "}}" + b);
    assert MatchLength(s) == |name| + 4 && s[2..|name| + 2] == name && s[|name| + 4..] == b;
  }

  // ---------- literal text ----------

  function Chars(s: string): seq<Item> {
    seq(|s|, i requires 0 <= i < |s| => Chr(s[i]))
  }

  /** Text that holds no placeholder. */
  ghost predicate Plain(s: string) {
    Scan(s) == Chars(s)
  }

  lemma CharsConcat(a: string, b: string)
    ensures Chars(a + b) == Chars(a) + Chars(b)
  {}

  // ---------- chains ----------

  /** A token and the literal text after it, up to the next token. */
  datatype Link = Link(name: string, lit: string)

  /** A text cut along its tokens: the literal text before the first, then the tokens. */
  datatype Chain = Chain(head: string, links: seq<Link>)

  function Cut(items: seq<Item>): Chain {
    if items == [] then Chain("", []) else
      var rest := Cut(items[1..]);
      match items[0]
      case Tok(name) => Chain("", [Link(name, rest.head)] + rest.links)
      case Chr(c) => Chain([c] + rest.head, rest.links)
  }

  function Parse(s: string): Chain {
    Cut(Scan(s))
  }

  function RenderLinks(links: seq<Link>): string {
    if links == [] then "" else Placeholder(links[0].name) + (links[0].lit + RenderLinks(links[1..]))
  }

  function Render(c: Chain): string {
    c.head + RenderLinks(c.links)
  }

  function LinkNames(links: seq<Link>): seq<string> {
    if links == [] then [] else [links[0].name] + LinkNames(links[1..])
  }

  lemma {:induction false} RenderCut(items: seq<Item>)
    ensures Render(Cut(items)) == Text(items)
    ensures LinkNames(Cut(items).links) == Names(items)
  {
    if items != [] {
      var rest := Cut(items[1..]);
      RenderCut(items[1..]);
      if items[0].Tok? {
        assert Cut(items).links[1..] == rest.links;
      }
    }
  }

  /** Cutting along the tokens loses nothing. */
  lemma RenderParse(s: string)
    ensures Render(Parse(s)) == s && LinkNames(Parse(s).links) == TokenNames(s)
  {
    TextScan(s);
    RenderCut(Scan(s));
  }

  /** A chain that is the cut of its own text. */
  ghost predicate Proper(c: Chain) {
    Plain(c.head) && ProperLinks(c.links)
  }

  ghost predicate ProperLinks(links: seq<Link>) {
    forall i :: 0 <= i < |links| ==> ValidName(links[i].name) && Plain(links[i].lit)
  }

  function ItemsOf(links: seq<Link>): seq<Item> {
    if links == [] then [] else [Tok(links[0].name)] + Chars(links[0].lit) + ItemsOf(links[1..])
  }

  lemma {:induction false} CutChars(s: string, items: seq<Item>)
    ensures Cut(Chars(s) + items) == Chain(s + Cut(items).head, Cut(items).links)
  {
    if s == "" {
      assert Chars(s) + items == items;
    } else {
      assert (Chars(s) + items)[1..] == Chars(s[1..]) + items;
      CutChars(s[1..], items);
      assert [s[0]] + (s[1..] + Cut(items).head) == s + Cut(items).head;
    }
  }

  lemma {:induction false} CutItems(links: seq<Link>)
    ensures Cut(ItemsOf(links)) == Chain("", links)
  {
    if links != [] {
      var rest := Chars(links[0].lit) + ItemsOf(links[1..]);
      CutItems(links[1..]);
      CutChars(links[0].lit, ItemsOf(links[1..]));
      assert ItemsOf(links) == [Tok(links[0].name)] + rest;
      assert ItemsOf(links)[1..] == rest;
      assert links[0].lit + "" == links[0].lit;
      assert links == [links[0]] + links[1..];
    }
  }

  lemma LinksAreSolid(links: seq<Link>)
    ensures Solid(RenderLinks(links))
  {
    if links != [] {
      assert RenderLinks(links)[..2] == "{{";
    }
  }

  /** The scan of one token, its literal text and what follows. */
  lemma ScanLink(name: string, lit: string, rest: string, items: seq<Item>)
    requires ValidName(name) && Plain(lit) && Solid(rest) && Scan(rest) == items
    ensures Scan(Placeholder(name) + (lit + rest)) == [Tok(name)] + Chars(lit) + items
  {
    var tail := lit + rest;
    assert Scan(tail) == Chars(lit) + items by { ScanConcat(lit, rest); }
    ScanPlaceholder(name, tail);
  }

  lemma {:induction false} ScanLinks(links: seq<Link>)
    requires ProperLinks(links)
    ensures Scan(RenderLinks(links)) == ItemsOf(links)
  {
    if links == [] {
      assert RenderLinks(links) == "";
    } else {
      ScanLinks(links[1..]);
      LinksAreSolid(links[1..]);
      ScanLink(links[0].name, links[0].lit, RenderLinks(links[1..]), ItemsOf(links[1..]));
    }
  }

  /** Putting together and cutting again is the identity. */
  lemma ParseRender(c: Chain)
    requires Proper(c)
    ensures Parse(Render(c)) == c
  {
    ScanLinks(c.links);
    LinksAreSolid(c.links);
    ScanConcat(c.head, RenderLinks(c.links));
    CutChars(c.head, ItemsOf(c.links));
    CutItems(c.links);
    assert c.head + "" == c.head;
  }

  lemma {:induction false} ParseIsProper(s: string)
    ensures Proper(Parse(s))
    decreases |s|
  {
    if s != "" {
      var c := Parse(Rest(s));
      FirstAndRest(s);
      ParseIsProper(Rest(s));
      assert Scan(s)[1..] == Scan(Rest(s));
      if First(s).Tok? {
        assert Parse(s) == Chain("", [Link(First(s).name, c.head)] + c.links);
      } else {
        RenderParse(Rest(s));
        LinksAreSolid(c.links);
        PlainFront(s[0], c.head, RenderLinks(c.links));
        assert Parse(s) == Chain([s[0]] + c.head, c.links);
      }
    }
  }

  /** A character in front of literal text that takes no part in a placeholder. */
  lemma PlainFront(c: char, head: string, rest: string)
    requires Plain(head) && Solid(rest) && MatchLength([c] + (head + rest)) == 0
    ensures Plain([c] + head)
  {
    assert [c] + (head + rest) == ([c] + head) + rest;
    NoStraddle([c] + head, rest);
    assert Rest([c] + head) == head;
    assert Chars([c] + head) == [Chr(c)] + Chars(head);
  }

  // ---------- positions ----------

  datatype Token = Token(name: string, start: nat, end: nat)

  function Positions(links: seq<Link>, at: nat): seq<Token> {
    if links == [] then [] else
      var end := at + |Placeholder(links[0].name)|;
      [Token(links[0].name, at, end)] + Positions(links[1..], end + |links[0].lit|)
  }

  /** Every placeholder of a segment with the range it spans. */
  function RemarkTokens(seg: string): seq<Token> {
    Positions(Parse(seg).links, |Parse(seg).head|)
  }

  lemma {:induction false} PositionsAreExact(links: seq<Link>, before: string, i: nat)
    requires i < |Positions(links, |before|)|
    ensures var t := Positions(links, |before|)[i];
      var text := before + RenderLinks(links);
      t.start < t.end <= |text| && text[t.start..t.end] == Placeholder(t.name)
  {
    var l := links[0];
    var text := before + RenderLinks(links);
    var next := before + Placeholder(l.name) + l.lit;
    assert text == next + RenderLinks(links[1..]);
    if i > 0 { PositionsAreExact(links[1..], next, i - 1); }
  }

  /** The ranges are those of the placeholders in the text. */
  lemma TokensAreExact(seg: string, i: nat)
    requires i < |RemarkTokens(seg)|
    ensures var t := RemarkTokens(seg)[i];
      t.start < t.end <= |seg| && seg[t.start..t.end] == Placeholder(t.name)
  {
    RenderParse(seg);
    PositionsAreExact(Parse(seg).links, Parse(seg).head, i);
  }
}
