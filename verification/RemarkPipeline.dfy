/** The brace translation is run on a template before it is filtered and again before it is filled: the second
    time it changes nothing. */
module RemarkPipeline {
  import opened Joining
  import opened RemarkBraces
  import opened RemarkFilter
  import opened RemarkFilterLaws
  import opened RemarkService
  import opened RemarkText
  import opened Trimming

  /** No single brace in the text opens a name of the table. */
  predicate Quiet(ui: map<string, string>, s: string, braced: bool) {
    s == "" || (!(s[0] == '{' && !braced && Known(ui, s[1..]).Some?) && Quiet(ui, s[1..], s[0] == '{'))
  }

  lemma {:induction false} QuietStays(ui: map<string, string>, s: string, braced: bool)
    requires Quiet(ui, s, braced)
    ensures Translate(ui, s, braced) == s
  {
    if s != "" {
      QuietStays(ui, s[1..], s[0] == '{');
      assert s == [s[0]] + s[1..];
    }
  }

  lemma QuietChar(ui: map<string, string>, c: char, s: string, braced: bool)
    requires !(c == '{' && !braced && Known(ui, s).Some?) && Quiet(ui, s, c == '{')
    ensures Quiet(ui, [c] + s, braced)
  {
    assert ([c] + s)[1..] == s;
  }

  lemma {:induction false} QuietThrough(ui: map<string, string>, s: string, rest: string, braced: bool)
    requires '{' !in s && s != ""
    ensures Quiet(ui, s + rest, braced) == Quiet(ui, rest, false)
  {
    assert (s + rest)[0] == s[0] && (s + rest)[1..] == s[1..] + rest;
    if |s| > 1 {
      QuietThrough(ui, s[1..], rest, false);
    } else {
      assert s[1..] + rest == rest;
    }
  }

  lemma QuietPlaceholder(ui: map<string, string>, name: string, rest: string, braced: bool)
    requires Clean(ui) && ValidName(name)
    ensures Quiet(ui, Placeholder(name) + rest, braced) == Quiet(ui, rest, false)
  {
    var s, tail := Placeholder(name) + rest, name + "}}";
    assert s[1..] == "{" + (tail + rest) && s[1..][1..] == tail + rest;
    OpenIsUnknown(ui, s[1..], 0);
    QuietThrough(ui, tail, rest, true);
  }

  lemma {:induction false} TranslatedIsQuiet(ui: map<string, string>, s: string, braced: bool)
    requires Clean(ui)
    ensures Quiet(ui, Translate(ui, s, braced), braced)
    decreases |s|
  {
    if s != "" {
      if s[0] == '{' && !braced && Known(ui, s[1..]).Some? {
        var rest := s[Closing(s[1..]) + 2..];
        TranslatedIsQuiet(ui, rest, false);
        QuietPlaceholder(ui, Known(ui, s[1..]).value, Translate(ui, rest, false), braced);
      } else {
        var t1 := Translate(ui, s[1..], s[0] == '{');
        TranslatedIsQuiet(ui, s[1..], s[0] == '{');
        SameToken(ui, s[1..], s[0] == '{');
        if Known(ui, t1).Some? { KnownBefore(ui, t1, s[1..]); }
        TranslateChar(ui, s, braced);
        QuietChar(ui, s[0], t1, braced);
      }
    }
  }

  /** A text that begins with no name character and no closing brace decides nothing about the tokens before it. */
  predicate Neutral(b: string) {
    b != "" && b[0] != '}' && !NameChar(b[0])
  }

  lemma KnownApart(ui: map<string, string>, a: string, b: string)
    requires Clean(ui) && Neutral(b)
    ensures Known(ui, a + b) == Known(ui, a)
  {
    ClosingConcat(a, b);
    if Closing(a) < |a| {
      assert (a + b)[..Closing(a)] == a[..Closing(a)];
    } else {
      var token := (a + b)[..Closing(a + b)];
      assert Closing(b) > 0 && token[|a|] == b[0];
      assert !ValidName(token);
    }
  }

  lemma {:induction false} QuietApart(ui: map<string, string>, a: string, b: string, braced: bool)
    requires Clean(ui) && Neutral(b)
    ensures Quiet(ui, a + b, braced) ==
      (Quiet(ui, a, braced) && Quiet(ui, b, if a == "" then braced else a[|a| - 1] == '{'))
    decreases |a|
  {
    if a == "" {
      assert a + b == b;
    } else {
      assert (a + b)[1..] == a[1..] + b && (a + b)[0] == a[0];
      KnownApart(ui, a[1..], b);
      QuietApart(ui, a[1..], b, a[0] == '{');
    }
  }

  /** Translating an already translated text changes nothing. */
  lemma TranslateTwice(ui: map<string, string>, s: string, braced: bool)
    requires Clean(ui)
    ensures Translate(ui, Translate(ui, s, braced), braced) == Translate(ui, s, braced)
  {
    TranslatedIsQuiet(ui, s, braced);
    QuietStays(ui, Translate(ui, s, braced), braced);
  }

  // ---------- filtering brings nothing to translate ----------

  ghost predicate QuietLinks(ui: map<string, string>, links: seq<Link>) {
    forall i :: 0 <= i < |links| ==> Quiet(ui, links[i].lit, false)
  }

  lemma QuietLinksFront(ui: map<string, string>, links: seq<Link>)
    requires links != []
    ensures QuietLinks(ui, links) <==> Quiet(ui, links[0].lit, false) && QuietLinks(ui, links[1..])
  {
    if QuietLinks(ui, links[1..]) && Quiet(ui, links[0].lit, false) {
      forall i | 0 <= i < |links| ensures Quiet(ui, links[i].lit, false) {
        if i > 0 { assert links[i] == links[1..][i - 1]; }
      }
    }
  }

  lemma {:induction false} QuietRenderLinks(ui: map<string, string>, links: seq<Link>, braced: bool)
    requires Clean(ui) && ProperLinks(links)
    ensures Quiet(ui, RenderLinks(links), braced) == QuietLinks(ui, links)
  {
    if links != [] {
      var lit, rest := links[0].lit, RenderLinks(links[1..]);
      QuietPlaceholder(ui, links[0].name, lit + rest, braced);
      QuietLinkTail(ui, lit, links[1..]);
      QuietRenderLinks(ui, links[1..], if lit == "" then false else lit[|lit| - 1] == '{');
      QuietLinksFront(ui, links);
    }
  }

  lemma QuietLinkTail(ui: map<string, string>, lit: string, links: seq<Link>)
    requires Clean(ui)
    ensures Quiet(ui, lit + RenderLinks(links), false) ==
      (Quiet(ui, lit, false) && Quiet(ui, RenderLinks(links), if lit == "" then false else lit[|lit| - 1] == '{'))
  {
    if links == [] {
      assert RenderLinks(links) == "" && lit + "" == lit;
    } else {
      assert RenderLinks(links)[0] == '{';
      QuietApart(ui, lit, RenderLinks(links), false);
    }
  }

  lemma QuietRender(ui: map<string, string>, c: Chain)
    requires Clean(ui) && Proper(c)
    ensures Quiet(ui, Render(c), false) == (Quiet(ui, c.head, false) && QuietLinks(ui, c.links))
  {
    QuietLinkTail(ui, c.head, c.links);
    QuietRenderLinks(ui, c.links, if c.head == "" then false else c.head[|c.head| - 1] == '{');
  }

  lemma {:induction false} TrimLeftQuiet(ui: map<string, string>, s: string)
    requires Quiet(ui, s, false)
    ensures Quiet(ui, TrimLeft(s), false)
  {
    if s != "" && Space(s[0]) { TrimLeftQuiet(ui, s[1..]); }
  }

  lemma {:induction false} TrimRightQuiet(ui: map<string, string>, s: string)
    requires Clean(ui) && Quiet(ui, s, false)
    ensures Quiet(ui, TrimRight(s), false)
  {
    if s != "" && Space(s[|s| - 1]) {
      var n := |s| - 1;
      assert s == s[..n] + s[n..];
      QuietApart(ui, s[..n], s[n..], false);
      TrimRightQuiet(ui, s[..n]);
    }
  }

  lemma {:induction false} KeepQuiet(ui: map<string, string>, links: seq<Link>, remove: set<string>)
    requires Clean(ui) && QuietLinks(ui, links)
    ensures QuietLinks(ui, Keep(links, remove))
  {
    if links != [] {
      KeepQuiet(ui, links[1..], remove);
      TrimRightQuiet(ui, links[0].lit);
      assert Quiet(ui, "", false) && Quiet(ui, " ", false);
    }
  }

  lemma SegmentQuiet(ui: map<string, string>, seg: string, remove: set<string>)
    requires Clean(ui) && Quiet(ui, seg, false)
    ensures Quiet(ui, FilterSegment(seg, remove), false)
  {
    var c := Parse(seg);
    RenderParse(seg);
    ParseIsProper(seg);
    QuietRender(ui, c);
    TrimLeftQuiet(ui, c.head);
    TrimRightQuiet(ui, TrimLeft(c.head));
    KeepQuiet(ui, c.links, remove);
    FilterIsProper(c, remove);
    QuietRender(ui, FilterChain(c, remove));
  }

  ghost predicate AllQuiet(ui: map<string, string>, segs: seq<string>) {
    forall i :: 0 <= i < |segs| ==> Quiet(ui, segs[i], false)
  }

  lemma {:induction false} JoinQuiet(ui: map<string, string>, segs: seq<string>)
    requires Clean(ui)
    ensures Quiet(ui, Join(segs, "|"), false) == AllQuiet(ui, segs)
  {
    if |segs| > 1 {
      var rest := Join(segs[1..], "|");
      JoinQuiet(ui, segs[1..]);
      Reassociate(segs[0], "|", rest);
      QuietApart(ui, segs[0], "|" + rest, false);
      QuietThrough(ui, "|", rest, if segs[0] == "" then false else segs[0][|segs[0]| - 1] == '{');
      assert AllQuiet(ui, segs) <==> Quiet(ui, segs[0], false) && AllQuiet(ui, segs[1..]);
    }
  }

  lemma {:induction false} KeptQuiet(ui: map<string, string>, segs: seq<string>, remove: set<string>)
    requires Clean(ui) && AllQuiet(ui, segs)
    ensures AllQuiet(ui, KeptSegments(segs, remove))
  {
    if segs != [] {
      KeptQuiet(ui, segs[1..], remove);
      SegmentQuiet(ui, segs[0], remove);
    }
  }

  lemma FilterQuiet(ui: map<string, string>, template: string, remove: set<string>)
    requires Clean(ui) && Quiet(ui, template, false)
    ensures Quiet(ui, FilterTemplate(template, remove), false)
  {
    var segs := Split(template, '|');
    JoinSplit(template, '|');
    JoinQuiet(ui, segs);
    KeptQuiet(ui, segs, remove);
    JoinQuiet(ui, KeptSegments(segs, remove));
  }

  /** Whatever link it is for, the template handed on comes out of the second translation as it went in. */
  lemma SecondTranslationIsIdle(ui: map<string, string>, template: string, remove: set<string>,
                                shown: set<string>, email: string)
    requires Clean(ui)
    ensures var t := Effective(Translate(ui, template, false), remove, shown, email);
      Translate(ui, t, false) == t
  {
    var translated := Translate(ui, template, false);
    TranslatedIsQuiet(ui, template, false);
    FilterQuiet(ui, translated, remove);
    QuietStays(ui, Effective(translated, remove, shown, email), false);
  }
}
