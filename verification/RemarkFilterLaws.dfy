/** The algebra of template filtering: which tokens are left, and what filtering twice does. */
module RemarkFilterLaws {
  import opened Joining
  import opened RemarkFilter
  import opened RemarkText
  import opened Trimming

  /** The names that are not removed, in order. */
  function Without(names: seq<string>, remove: set<string>): seq<string> {
    if names == [] then [] else (if names[0] in remove then [] else [names[0]]) + Without(names[1..], remove)
  }

  // ---------- a filtered segment is cut where it was put together ----------

  lemma {:induction false} PlainTail(s: string)
    requires Plain(s) && s != ""
    ensures Plain(s[1..])
  {
    assert Scan(s)[0] == Chars(s)[0];
    assert Scan(s)[1..] == Scan(Rest(s)) && Chars(s)[1..] == Chars(s[1..]);
    assert Rest(s) == s[1..];
  }

  lemma PlainFront(s: string)
    requires Plain(s) && s != "" && Space(s[|s| - 1])
    ensures Plain(s[..|s| - 1])
  {
    var a, b := s[..|s| - 1], s[|s| - 1..];
    assert s == a + b;
    ScanConcat(a, b);
    assert Scan(b) == Chars(b);
    CharsConcat(a, b);
    assert Scan(a) == (Scan(a) + Chars(b))[..|Scan(a)|] && |Scan(a)| == |Chars(a)|;
    assert Chars(a) == (Chars(a) + Chars(b))[..|Chars(a)|];
  }

  lemma {:induction false} TrimLeftPlain(s: string)
    requires Plain(s)
    ensures Plain(TrimLeft(s))
  {
    if s != "" && Space(s[0]) {
      PlainTail(s);
      TrimLeftPlain(s[1..]);
    }
  }

  lemma {:induction false} TrimRightPlain(s: string)
    requires Plain(s)
    ensures Plain(TrimRight(s))
  {
    if s != "" && Space(s[|s| - 1]) {
      PlainFront(s);
      TrimRightPlain(s[..|s| - 1]);
    }
  }

  lemma PlainShort()
    ensures Plain("") && Plain(" ") && Plain("-")
  {}

  lemma {:induction false} KeepIsProper(links: seq<Link>, remove: set<string>)
    requires ProperLinks(links)
    ensures ProperLinks(Keep(links, remove))
  {
    if links != [] {
      KeepIsProper(links[1..], remove);
      PlainShort();
      TrimRightPlain(links[0].lit);
    }
  }

  lemma FilterIsProper(c: Chain, remove: set<string>)
    requires Proper(c)
    ensures Proper(FilterChain(c, remove))
  {
    PlainShort();
    TrimLeftPlain(c.head);
    TrimRightPlain(TrimLeft(c.head));
    KeepIsProper(c.links, remove);
  }

  lemma FilteredParse(seg: string, remove: set<string>)
    ensures Parse(FilterSegment(seg, remove)) == FilterChain(Parse(seg), remove)
  {
    ParseIsProper(seg);
    FilterIsProper(Parse(seg), remove);
    ParseRender(FilterChain(Parse(seg), remove));
  }

  // ---------- the tokens that are left ----------

  lemma {:induction false} KeepNames(links: seq<Link>, remove: set<string>)
    ensures LinkNames(Keep(links, remove)) == Without(LinkNames(links), remove)
  {
    if links != [] {
      KeepNames(links[1..], remove);
      assert LinkNames(links)[1..] == LinkNames(links[1..]);
      if links[0].name !in remove {
        assert Keep(links, remove)[1..] == Keep(links[1..], remove);
      }
    }
  }

  /** A filtered segment has the segment's tokens, in order, without the removed ones. */
  lemma SegmentTokensFilter(seg: string, remove: set<string>)
    ensures TokenNames(FilterSegment(seg, remove)) == Without(TokenNames(seg), remove)
  {
    FilteredParse(seg, remove);
    RenderParse(seg);
    RenderParse(FilterSegment(seg, remove));
    KeepNames(Parse(seg).links, remove);
  }

  function AllNames(segs: seq<string>): seq<string> {
    if segs == [] then [] else TokenNames(segs[0]) + AllNames(segs[1..])
  }

  lemma BarBetween(seg: string, rest: string)
    ensures TokenNames(seg + "|" + rest) == TokenNames(seg) + TokenNames(rest)
  {
    Reassociate(seg, "|", rest);
    TokenNamesConcat(seg, "|" + rest);
    assert Rest("|" + rest) == rest;
    assert TokenNames("|" + rest) == TokenNames(rest);
  }

  /** No token reaches over a bar. */
  lemma {:induction false} JoinNames(segs: seq<string>)
    ensures TokenNames(Join(segs, "|")) == AllNames(segs)
  {
    if |segs| > 1 {
      JoinNames(segs[1..]);
      BarBetween(segs[0], Join(segs[1..], "|"));
    }
  }

  lemma {:induction false} WithoutConcat(a: seq<string>, b: seq<string>, remove: set<string>)
    ensures Without(a + b, remove) == Without(a, remove) + Without(b, remove)
  {
    if a == [] {
      assert a + b == b;
    } else {
      assert (a + b)[1..] == a[1..] + b;
      WithoutConcat(a[1..], b, remove);
    }
  }

  lemma {:induction false} KeptNames(segs: seq<string>, remove: set<string>)
    ensures AllNames(KeptSegments(segs, remove)) == Without(AllNames(segs), remove)
  {
    if segs != [] {
      var out, rest := FilterSegment(segs[0], remove), KeptSegments(segs[1..], remove);
      KeptNames(segs[1..], remove);
      SegmentTokensFilter(segs[0], remove);
      WithoutConcat(TokenNames(segs[0]), AllNames(segs[1..]), remove);
      if out == "" {
        assert TokenNames(out) == [];
        assert [] + rest == rest;
      } else {
        assert ([out] + rest)[1..] == rest;
      }
    }
  }

  /** The tokens of a filtered template are exactly the original tokens, in order, minus the removed set. */
  lemma FilterKeepsTheRest(template: string, remove: set<string>)
    ensures TokenNames(FilterTemplate(template, remove)) == Without(TokenNames(template), remove)
  {
    var segs := Split(template, '|');
    JoinSplit(template, '|');
    JoinNames(segs);
    JoinNames(KeptSegments(segs, remove));
    KeptNames(segs, remove);
  }

  // ---------- filtering twice ----------

  lemma {:induction false} KeepNothing(links: seq<Link>, remove: set<string>)
    ensures Keep(links, remove) == [] <==> forall i :: 0 <= i < |links| ==> links[i].name in remove
  {
    if links != [] { KeepNothing(links[1..], remove); }
  }

  /** The first kept token comes first, if nothing before it was removed. */
  lemma KeepHead(links: seq<Link>, remove: set<string>)
    requires links != [] && links[0].name !in remove
    ensures Keep(links, remove) != [] && Keep(links, remove)[0].name == links[0].name
  {}

  lemma {:induction false} KeepTwice(links: seq<Link>, r1: set<string>, r2: set<string>)
    ensures Keep(Keep(links, r1), r2) == Keep(links, r1 + r2)
  {
    if links != [] {
      var l, more := links[0], links[1..];
      var once := Keep(more, r1);
      KeepTwice(more, r1, r2);
      assert links == [l] + more;
      if l.name !in r1 && more != [] {
        KeepFront(l, more, r1);
        KeepFrontTwice(l, more, r1, r2);
      } else if l.name !in r1 {
        TrimRightTwice(l.lit);
      }
    }
  }

  /** A kept token before others, filtered a second time. */
  lemma KeepFrontTwice(l: Link, more: seq<Link>, r1: set<string>, r2: set<string>)
    requires l.name !in r1 && more != [] && Keep(Keep(more, r1), r2) == Keep(more, r1 + r2)
    ensures Keep(Keep([l] + more, r1), r2) == Keep([l] + more, r1 + r2)
  {
    var once := Keep(more, r1);
    KeepFront(l, more, r1);
    var lit := Keep([l] + more, r1)[0].lit;
    if l.name in r2 {
      assert ([Link(l.name, lit)] + once)[1..] == once;
      assert ([l] + more)[1..] == more;
    } else {
      KeepFront(l, more, r1 + r2);
      if once == [] {
        KeepNothing(more, r1);
        assert more[0].name in r1;
        assert [Link(l.name, lit)] + once == [Link(l.name, "")];
      } else {
        KeepFront(Link(l.name, lit), once, r2);
        if more[0].name !in r1 { KeepHead(more, r1); }
      }
    }
  }

  lemma FilterChainTwice(c: Chain, r1: set<string>, r2: set<string>)
    ensures FilterChain(FilterChain(c, r1), r2) == FilterChain(c, r1 + r2)
      || (c.links != [] && Keep(c.links, r1) == [] && Render(FilterChain(FilterChain(c, r1), r2)) == ""
          && Render(FilterChain(c, r1 + r2)) == "")
  {
    KeepTwice(c.links, r1, r2);
    if c.links == [] {
      TrimTwice(c.head);
    } else if Keep(c.links, r1) == [] {
      KeepNothing(c.links, r1);
      KeepNothing(c.links, r1 + r2);
    } else if c.links[0].name !in r1 {
      KeepHead(c.links, r1);
      TrimLeftTwice(c.head);
    }
  }

  /** Filtering a segment twice removes both sets at once. */
  lemma SegmentTwice(seg: string, r1: set<string>, r2: set<string>)
    ensures FilterSegment(FilterSegment(seg, r1), r2) == FilterSegment(seg, r1 + r2)
  {
    FilteredParse(seg, r1);
    FilterChainTwice(Parse(seg), r1, r2);
  }

  lemma {:induction false} KeptTwice(segs: seq<string>, r1: set<string>, r2: set<string>)
    ensures KeptSegments(KeptSegments(segs, r1), r2) == KeptSegments(segs, r1 + r2)
  {
    if segs != [] {
      var out, rest := FilterSegment(segs[0], r1), KeptSegments(segs[1..], r1);
      KeptTwice(segs[1..], r1, r2);
      SegmentTwice(segs[0], r1, r2);
      if out == "" {
        EmptyStaysEmpty(r2);
        assert [] + rest == rest;
      } else {
        assert ([out] + rest)[1..] == rest;
      }
    }
  }

  lemma EmptyStaysEmpty(remove: set<string>)
    ensures FilterSegment("", remove) == ""
  {}

  // ---------- the bars stay where they are ----------

  lemma {:induction false} RenderMembers(links: seq<Link>, c: char)
    requires c !in {'{', '}'} && !NameChar(c)
    requires forall i :: 0 <= i < |links| ==> ValidName(links[i].name)
    ensures c in RenderLinks(links) <==> exists i :: 0 <= i < |links| && c in links[i].lit
  {
    if links != [] {
      RenderMembers(links[1..], c);
      assert c !in Placeholder(links[0].name);
      if exists i :: 0 <= i < |links| && c in links[i].lit {
        var i :| 0 <= i < |links| && c in links[i].lit;
        assert i > 0 ==> c in links[1..][i - 1].lit;
      }
    }
  }

  lemma {:induction false} KeepMembers(links: seq<Link>, remove: set<string>, c: char)
    requires c != ' ' && forall i :: 0 <= i < |links| ==> c !in links[i].lit
    ensures forall i :: 0 <= i < |Keep(links, remove)| ==> c !in Keep(links, remove)[i].lit
  {
    if links != [] {
      KeepMembers(links[1..], remove, c);
      if c in TrimRight(links[0].lit) { TrimRightMembers(links[0].lit, c); }
    }
  }

  lemma HeadMembers(head: string, c: char)
    requires c !in head
    ensures c !in TrimLeft(head) && c !in TrimSpace(head)
  {
    if c in TrimSpace(head) { TrimRightMembers(TrimLeft(head), c); }
    if c in TrimLeft(head) { TrimLeftMembers(head, c); }
  }

  /** Filtering brings no bar into a segment. */
  lemma NoNewBar(seg: string, remove: set<string>)
    requires '|' !in seg
    ensures '|' !in FilterSegment(seg, remove)
  {
    var c := Parse(seg);
    ParseIsProper(seg);
    RenderParse(seg);
    RenderMembers(c.links, '|');
    assert '|' !in c.head && forall i :: 0 <= i < |c.links| ==> '|' !in c.links[i].lit;
    HeadMembers(c.head, '|');
    KeepMembers(c.links, remove, '|');
    KeepIsProper(c.links, remove);
    RenderMembers(Keep(c.links, remove), '|');
  }

  lemma {:induction false} KeptAreFree(segs: seq<string>, remove: set<string>)
    requires Free(segs, '|')
    ensures Free(KeptSegments(segs, remove), '|')
  {
    if segs != [] {
      KeptAreFree(segs[1..], remove);
      NoNewBar(segs[0], remove);
    }
  }

  /** Filtering by one set and then by another equals filtering by their union. */
  lemma FilterTwice(template: string, r1: set<string>, r2: set<string>)
    ensures FilterTemplate(FilterTemplate(template, r1), r2) == FilterTemplate(template, r1 + r2)
  {
    var segs := Split(template, '|');
    var kept := KeptSegments(segs, r1);
    KeptTwice(segs, r1, r2);
    JoinSplit(template, '|');
    KeptAreFree(segs, r1);
    if kept == [] {
      EmptyStaysEmpty(r2);
      assert Split("", '|') == [""];
      assert KeptSegments([""], r2) == [];
    } else {
      SplitJoin(kept, '|');
    }
  }

  /** So filtering is idempotent. */
  lemma FilterIsIdempotent(template: string, remove: set<string>)
    ensures FilterTemplate(FilterTemplate(template, remove), remove) == FilterTemplate(template, remove)
  {
    FilterTwice(template, remove, remove);
    assert remove + remove == remove;
  }
}
