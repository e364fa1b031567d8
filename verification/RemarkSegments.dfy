/** The expansion and the filtering of a whole template, segment by segment and piece by piece. */
module RemarkSegments {
  import opened Joining
  import opened RemarkBraces
  import opened RemarkExpand
  import opened RemarkFallback
  import opened RemarkFilter
  import opened RemarkText
  import opened Trimming

  // ---------- what a segment says ----------

  /** The value of a token is worth showing. */
  predicate Says(value: Values, name: string) {
    && value(name) != ""
    && !(name in {"TRAFFIC_LEFT", "TRAFFIC_TOTAL", "DAYS_LEFT", "TIME_LEFT"} && value(name) == "\U{221E}")
  }

  /** Nothing is written up to the i-th token. */
  ghost predicate Quiet(links: seq<Link>, value: Values, i: nat)
    requires i < |links|
  {
    forall k :: 0 <= k <= i ==> value(links[k].name) == ""
  }

  /** The i-th token and the text behind it: a lone hyphen with nothing before it or no value after it goes. */
  ghost function Piece(links: seq<Link>, value: Values, wrote: bool, i: nat): string
    requires i < |links|
  {
    value(links[i].name) +
    if i + 1 < |links| && TrimSpace(links[i].lit) == "-" &&
       ((!wrote && Quiet(links, value, i)) || value(links[i + 1].name) == "")
    then "" else links[i].lit
  }

  ghost function Pieces(links: seq<Link>, value: Values, wrote: bool): seq<string> {
    seq(|links|, i requires 0 <= i < |links| => Piece(links, value, wrote, i))
  }

  ghost function Spelled(c: Chain, value: Values): string {
    c.head + Join(Pieces(c.links, value, false), "")
  }

  /** A segment stays when it is all text or one of its tokens has something to say. */
  ghost predicate Stays(c: Chain, value: Values) {
    c.links == [] || exists i :: 0 <= i < |c.links| && Says(value, c.links[i].name)
  }

  ghost function SpelledSegments(chains: seq<Chain>, value: Values): seq<string> {
    if chains == [] then [] else
      (if Stays(chains[0], value) then [Spelled(chains[0], value)] else []) + SpelledSegments(chains[1..], value)
  }

  function Rendered(chains: seq<Chain>): (segs: seq<string>)
    ensures |segs| == |chains| && forall i :: 0 <= i < |chains| ==> segs[i] == Render(chains[i])
  {
    seq(|chains|, i requires 0 <= i < |chains| => Render(chains[i]))
  }

  // ---------- one segment ----------

  lemma QuietBehind(links: seq<Link>, value: Values, i: nat)
    requires 0 < i < |links|
    ensures Quiet(links, value, i) <==> value(links[0].name) == "" && Quiet(links[1..], value, i - 1)
  {
    assert forall k :: 0 < k <= i ==> links[k] == links[1..][k - 1];
  }

  lemma PiecesBehind(links: seq<Link>, value: Values, wrote: bool)
    requires links != []
    ensures Pieces(links, value, wrote) ==
      [Piece(links, value, wrote, 0)] + Pieces(links[1..], value, wrote || value(links[0].name) != "")
  {
    forall i | 0 < i < |links|
      ensures Piece(links, value, wrote, i) == Piece(links[1..], value, wrote || value(links[0].name) != "", i - 1)
    {
      QuietBehind(links, value, i);
    }
  }

  lemma JoinFirst(first: string, rest: seq<string>)
    ensures Join([first] + rest, "") == first + Join(rest, "")
  {
    assert ([first] + rest)[1..] == rest;
    assert first + "" == first;
  }

  lemma {:induction false} LinksArePieces(links: seq<Link>, value: Values, wrote: bool)
    ensures ExpandLinks(links, value, wrote) == Join(Pieces(links, value, wrote), "")
  {
    if links != [] {
      var v := value(links[0].name);
      PiecesBehind(links, value, wrote);
      LinksArePieces(links[1..], value, wrote || v != "");
      JoinFirst(Piece(links, value, wrote, 0), Pieces(links[1..], value, wrote || v != ""));
    }
  }

  lemma StaysExactly(c: Chain, value: Values)
    ensures Stays(c, value) <==> c.links == [] || Informative(value, LinkNames(c.links))
  {
    LinkNamesAt(c.links);
    if Informative(value, LinkNames(c.links)) {
      var i :| 0 <= i < |LinkNames(c.links)| && Worth(value, LinkNames(c.links)[i]);
      assert Says(value, c.links[i].name);
    }
    if c.links != [] && Stays(c, value) {
      var i :| 0 <= i < |c.links| && Says(value, c.links[i].name);
      assert Worth(value, LinkNames(c.links)[i]);
    }
  }

  /** A segment is spelled out piece by piece, and dropped exactly when it has tokens and none with anything to say. */
  lemma SegmentExpandsExactly(c: Chain, value: Values)
    requires Proper(c)
    ensures ExpandSegment(Render(c), value) == (Spelled(c, value), !Stays(c, value))
  {
    ParseRender(c);
    LinksArePieces(c.links, value, false);
    StaysExactly(c, value);
  }

  // ---------- the whole template ----------

  lemma {:induction false} SegmentsExpand(chains: seq<Chain>, value: Values)
    requires forall i :: 0 <= i < |chains| ==> Proper(chains[i])
    ensures ExpandSegments(Rendered(chains), value) == SpelledSegments(chains, value)
  {
    if chains != [] {
      assert Rendered(chains)[1..] == Rendered(chains[1..]);
      SegmentsExpand(chains[1..], value);
      SegmentExpandsExactly(chains[0], value);
    }
  }

  lemma BraceWithin(a: string, b: string, c: string)
    requires HasDoubleBrace(b)
    ensures HasDoubleBrace(a + b + c)
  {
    var i :| 0 <= i < |b| - 1 && b[i] == '{' && b[i + 1] == '{';
    var s := a + b + c;
    assert s[|a| + i] == '{' && s[|a| + i + 1] == '{';
  }

  lemma BraceInToken(c: Chain)
    requires c.links != []
    ensures HasDoubleBrace(Render(c))
  {
    var p, tail := Placeholder(c.links[0].name), c.links[0].lit + RenderLinks(c.links[1..]);
    assert p[0] == '{' && p[1] == '{';
    BraceWithin(c.head, p, tail);
    Reassociate(c.head, p, tail);
  }

  lemma {:induction false} BraceInSegment(segs: seq<string>, i: nat)
    requires i < |segs| && HasDoubleBrace(segs[i])
    ensures HasDoubleBrace(Join(segs, "|"))
  {
    if |segs| > 1 && i == 0 {
      BraceWithin("", segs[0], "|" + Join(segs[1..], "|"));
      Reassociate(segs[0], "|", Join(segs[1..], "|"));
      assert "" + segs[0] == segs[0];
    } else if |segs| > 1 {
      BraceInSegment(segs[1..], i - 1);
      BraceWithin(segs[0] + "|", Join(segs[1..], "|"), "");
      assert Join(segs[1..], "|") + "" == Join(segs[1..], "|");
      assert segs[0] + "|" + Join(segs[1..], "|") + "" == Join(segs, "|");
    }
  }

  lemma {:induction false} TextStays(chains: seq<Chain>, value: Values)
    requires forall i :: 0 <= i < |chains| ==> chains[i].links == []
    ensures SpelledSegments(chains, value) == Rendered(chains)
  {
    if chains != [] {
      TextStays(chains[1..], value);
      assert Rendered(chains) == [Render(chains[0])] + Rendered(chains[1..]);
      assert Pieces(chains[0].links, value, false) == [];
    }
  }

  /** Whatever the template: once its braces are translated it is read segment by segment between the bars, the segments
      with something to say are spelled out in order, and bars join them again. */
  lemma ExpandsSegmentBySegment(ui: map<string, string>, template: string, chains: seq<Chain>, value: Values)
    requires chains != [] && Translate(ui, template, false) == Join(Rendered(chains), "|")
    requires forall i :: 0 <= i < |chains| ==> Proper(chains[i]) && '|' !in Render(chains[i])
    ensures ExpandRemarkVars(ui, template, value) == Join(SpelledSegments(chains, value), "|")
  {
    if HasDoubleBrace(Join(Rendered(chains), "|")) {
      SplitJoin(Rendered(chains), '|');
      SegmentsExpand(chains, value);
    } else {
      forall i | 0 <= i < |chains| ensures chains[i].links == [] {
        if chains[i].links != [] {
          BraceInToken(chains[i]);
          BraceInSegment(Rendered(chains), i);
        }
      }
      TextStays(chains, value);
    }
  }

  // ---------- what filtering leaves ----------

  /** The positions of the kept tokens from one on. */
  function Kept(links: seq<Link>, remove: set<string>, from: nat): seq<nat>
    requires from <= |links|
    decreases |links| - from
  {
    if from == |links| then [] else
      (if links[from].name in remove then [] else [from]) + Kept(links, remove, from + 1)
  }

  lemma {:induction false} KeptExactly(links: seq<Link>, remove: set<string>, from: nat)
    requires from <= |links|
    ensures forall i :: i in Kept(links, remove, from) <==> from <= i < |links| && links[i].name !in remove
    ensures forall p, q :: 0 <= p < q < |Kept(links, remove, from)| ==>
      Kept(links, remove, from)[p] < Kept(links, remove, from)[q]
    decreases |links| - from
  {
    if from < |links| {
      var later := Kept(links, remove, from + 1);
      KeptExactly(links, remove, from + 1);
      forall q | 0 <= q < |later| ensures from < later[q] { assert later[q] in later; }
    }
  }

  /** The text behind the p-th kept token: what stood between it and the next one if they were neighbours, else a space;
      behind the last one, what stood behind it without the white space at its end, if it was the last of all. */
  function LitBehind(links: seq<Link>, kept: seq<nat>, p: nat): string
    requires p < |kept| && forall q :: 0 <= q < |kept| ==> kept[q] < |links|
  {
    if p + 1 < |kept| then (if kept[p + 1] == kept[p] + 1 then links[kept[p]].lit else " ")
    else if kept[p] + 1 == |links| then TrimRight(links[kept[p]].lit)
    else ""
  }

  /** These links are the kept ones. */
  ghost predicate AreKept(left: seq<Link>, links: seq<Link>, kept: seq<nat>) {
    && |left| == |kept| && (forall q :: 0 <= q < |kept| ==> kept[q] < |links|)
    && forall p :: 0 <= p < |kept| ==> left[p] == Link(links[kept[p]].name, LitBehind(links, kept, p))
  }

  lemma LitLater(links: seq<Link>, kept: seq<nat>, i: nat, p: nat)
    requires i < |links| && p < |kept| && forall q :: 0 <= q < |kept| ==> kept[q] < |links|
    ensures LitBehind(links, [i] + kept, p + 1) == LitBehind(links, kept, p)
  {
    var more := [i] + kept;
    assert more[p + 1] == kept[p] && (p + 1 < |kept| ==> more[p + 2] == kept[p + 1]);
  }

  lemma KeptInFront(left: seq<Link>, links: seq<Link>, kept: seq<nat>, i: nat)
    requires AreKept(left, links, kept) && i < |links|
    ensures AreKept([Link(links[i].name, LitBehind(links, [i] + kept, 0))] + left, links, [i] + kept)
  {
    var front, more := Link(links[i].name, LitBehind(links, [i] + kept, 0)), [i] + kept;
    forall p | 0 <= p < |more|
      ensures ([front] + left)[p] == Link(links[more[p]].name, LitBehind(links, more, p))
    {
      if p > 0 { LitLater(links, kept, i, p - 1); }
    }
  }

  lemma LitIs(links: seq<Link>, remove: set<string>, i: nat)
    requires i < |links| && links[i].name !in remove
    requires AreKept(Keep(links[i + 1..], remove), links, Kept(links, remove, i + 1))
    ensures Keep(links[i..], remove) ==
      [Link(links[i].name, LitBehind(links, [i] + Kept(links, remove, i + 1), 0))] + Keep(links[i + 1..], remove)
  {
    assert links[i..][1..] == links[i + 1..];
    KeptExactly(links, remove, i + 1);
  }

  lemma NextIsRemoved(links: seq<Link>, remove: set<string>, i: nat)
    requires i < |links| && links[i].name in remove
    ensures Keep(links[i..], remove) == Keep(links[i + 1..], remove)
    ensures Kept(links, remove, i) == Kept(links, remove, i + 1)
  {
    assert links[i..][1..] == links[i + 1..];
  }

  /** One more in front, if the token is kept. */
  lemma MoreKept(left: seq<Link>, links: seq<Link>, kept: seq<nat>, i: nat, now: seq<Link>, at: seq<nat>)
    requires AreKept(left, links, kept) && i < |links| && at == [i] + kept
    requires now == [Link(links[i].name, LitBehind(links, at, 0))] + left
    ensures AreKept(now, links, at)
  {
    KeptInFront(left, links, kept, i);
  }

  lemma {:induction false} KeepExactly(links: seq<Link>, remove: set<string>, from: nat)
    requires from <= |links|
    ensures AreKept(Keep(links[from..], remove), links, Kept(links, remove, from))
    decreases |links| - from
  {
    if from < |links| {
      var left, kept := Keep(links[from + 1..], remove), Kept(links, remove, from + 1);
      KeepExactly(links, remove, from + 1);
      if links[from].name in remove {
        NextIsRemoved(links, remove, from);
      } else {
        LitIs(links, remove, from);
        MoreKept(left, links, kept, from, Keep(links[from..], remove), Kept(links, remove, from));
      }
    }
  }

  /** What filtering leaves of a segment: text alone is trimmed; otherwise the kept tokens, the text before the first
      one only if that was the first of all. */
  ghost predicate Leaves(c: Chain, remove: set<string>, left: Chain) {
    if c.links == [] then left == Chain(TrimSpace(c.head), []) else
      && left.head == (if c.links[0].name in remove then "" else TrimLeft(c.head))
      && AreKept(left.links, c.links, Kept(c.links, remove, 0))
  }

  lemma LeftExactly(c: Chain, remove: set<string>)
    ensures Leaves(c, remove, FilterChain(c, remove))
  {
    KeepExactly(c.links, remove, 0);
    assert c.links[0..] == c.links;
  }

  lemma OnlyOneLeft(c: Chain, remove: set<string>, left: Chain)
    requires Leaves(c, remove, left)
    ensures left == FilterChain(c, remove)
  {
    LeftExactly(c, remove);
    if c.links != [] { assert left.links == FilterChain(c, remove).links; }
  }

  lemma {:induction false} SegmentsLeft(chains: seq<Chain>, remove: set<string>, left: seq<Chain>)
    requires |left| == |chains|
    requires forall i :: 0 <= i < |chains| ==> Proper(chains[i]) && Leaves(chains[i], remove, left[i])
    ensures KeptSegments(Rendered(chains), remove) == Filled(Rendered(left))
  {
    if chains != [] {
      assert Rendered(chains)[1..] == Rendered(chains[1..]) && Rendered(left)[1..] == Rendered(left[1..]);
      SegmentsLeft(chains[1..], remove, left[1..]);
      OnlyOneLeft(chains[0], remove, left[0]);
      ParseRender(chains[0]);
    }
  }

  /** A template is filtered segment by segment between the bars, and bars join the segments of which text is left. */
  lemma FiltersSegmentBySegment(chains: seq<Chain>, remove: set<string>, left: seq<Chain>)
    requires chains != [] && |left| == |chains|
    requires forall i :: 0 <= i < |chains| ==> Proper(chains[i]) && '|' !in Render(chains[i])
    requires forall i :: 0 <= i < |chains| ==> Leaves(chains[i], remove, left[i])
    ensures FilterTemplate(Join(Rendered(chains), "|"), remove) == Join(Filled(Rendered(left)), "|")
  {
    SplitJoin(Rendered(chains), '|');
    SegmentsLeft(chains, remove, left);
  }

  /** Every template is made of such segments. */
  lemma EveryTemplateHasSegments(template: string) returns (chains: seq<Chain>)
    ensures chains != [] && template == Join(Rendered(chains), "|")
    ensures forall i :: 0 <= i < |chains| ==> Proper(chains[i]) && '|' !in Render(chains[i])
  {
    var segs := Split(template, '|');
    chains := seq(|segs|, i requires 0 <= i < |segs| => Parse(segs[i]));
    JoinSplit(template, '|');
    forall i | 0 <= i < |segs| ensures Proper(chains[i]) && Render(chains[i]) == segs[i] {
      ParseIsProper(segs[i]);
      RenderParse(segs[i]);
    }
    assert Rendered(chains) == segs;
  }
}
