/** Taking whole categories of tokens out of a remark template before any value is known. */
module RemarkFilter {
  import opened Joining
  import opened RemarkText
  import opened Trimming

  // ---------- what filtering means, along the tokens ----------

  /** The kept tokens: literal text between two that stood side by side stays, and a space joins two between which
      something was removed. */
  function Keep(links: seq<Link>, remove: set<string>): seq<Link> {
    if links == [] then [] else
      var l, rest := links[0], Keep(links[1..], remove);
      if l.name in remove then rest else
        var lit := if |links| == 1 then TrimRight(l.lit)
                   else if links[1].name !in remove then l.lit
                   else if rest == [] then "" else " ";
        [Link(l.name, lit)] + rest
  }

  function FilterChain(c: Chain, remove: set<string>): Chain {
    if c.links == [] then Chain(TrimSpace(c.head), [])
    else Chain(if c.links[0].name in remove then "" else TrimLeft(c.head), Keep(c.links, remove))
  }

  function FilterSegment(seg: string, remove: set<string>): string {
    Render(FilterChain(Parse(seg), remove))
  }

  function NonEmpty(s: string): seq<string> {
    if s == "" then [] else [s]
  }

  function KeptSegments(segs: seq<string>, remove: set<string>): seq<string> {
    if segs == [] then [] else NonEmpty(FilterSegment(segs[0], remove)) + KeptSegments(segs[1..], remove)
  }

  function FilterTemplate(template: string, remove: set<string>): string {
    Join(KeptSegments(Split(template, '|'), remove), "|")
  }

  // ---------- runs between removed tokens ----------

  function SetLast(links: seq<Link>, lit: string): seq<Link>
    requires links != []
  {
    links[..|links| - 1] + [Link(links[|links| - 1].name, lit)]
  }

  function LastLit(links: seq<Link>): string
    requires links != []
  {
    links[|links| - 1].lit
  }

  /** What one run between two removed tokens contributes: without tokens nothing, else the run without the literal
      text that touches a removed token, trimmed. */
  function RunOf(c: Chain, leftRemoved: bool, rightRemoved: bool): seq<string> {
    if c.links == [] then [] else
      [(if leftRemoved then "" else TrimLeft(c.head)) +
       RenderLinks(SetLast(c.links, if rightRemoved then "" else TrimRight(LastLit(c.links))))]
  }

  /** The runs still to come, from the tokens kept since the last removed one. */
  function Runs(run: Chain, rest: seq<Link>, leftRemoved: bool, remove: set<string>): seq<string>
    decreases |rest|
  {
    if rest == [] then RunOf(run, leftRemoved, false)
    else if rest[0].name in remove then
      RunOf(run, leftRemoved, true) + Runs(Chain(rest[0].lit, []), rest[1..], true, remove)
    else Runs(run.(links := run.links + [rest[0]]), rest[1..], leftRemoved, remove)
  }

  ghost predicate AllKept(links: seq<Link>, remove: set<string>) {
    forall i :: 0 <= i < |links| ==> links[i].name !in remove
  }

  lemma {:induction false} RenderConcat(a: seq<Link>, b: seq<Link>)
    ensures RenderLinks(a + b) == RenderLinks(a) + RenderLinks(b)
  {
    if a == [] {
      assert a + b == b;
    } else {
      assert (a + b)[1..] == a[1..] + b;
      RenderConcat(a[1..], b);
    }
  }

  lemma RenderSetLast(links: seq<Link>, lit: string)
    requires links != []
    ensures RenderLinks(SetLast(links, lit)) == RenderLinks(SetLast(links, "")) + lit
  {
    var front, name := links[..|links| - 1], links[|links| - 1].name;
    RenderConcat(front, [Link(name, lit)]);
    RenderConcat(front, [Link(name, "")]);
    assert RenderLinks([Link(name, lit)]) == Placeholder(name) + lit;
    assert RenderLinks([Link(name, "")]) == Placeholder(name);
  }

  lemma RenderEnds(links: seq<Link>)
    requires links != []
    ensures var text := RenderLinks(SetLast(links, ""));
      text != "" && text[0] == '{' && text[|text| - 1] == '}'
  {
    var front, name := links[..|links| - 1], links[|links| - 1].name;
    RenderConcat(front, [Link(name, "")]);
    assert RenderLinks([Link(name, "")]) == Placeholder(name);
    if front != [] { assert RenderLinks(front)[0] == '{'; }
  }

  lemma LastIs(links: seq<Link>)
    requires links != []
    ensures SetLast(links, LastLit(links)) == links
  {}

  lemma TrimAround(head: string, core: string, lit: string)
    requires core != "" && !Space(core[0]) && !Space(core[|core| - 1])
    ensures TrimSpace(head + (core + lit)) == TrimLeft(head) + (core + TrimRight(lit))
  {
    var left := TrimLeft(head);
    TrimLeftConcat(head, core + lit);
    assert TrimRight((left + core) + lit) == (left + core) + TrimRight(lit) by {
      assert (left + core)[|left + core| - 1] == core[|core| - 1];
      TrimRightConcat(left + core, lit);
    }
    Reassociate(left, core, lit);
    Reassociate(left, core, TrimRight(lit));
  }

  /** The text of the tokens, with its last literal text set apart. */
  lemma RenderApart(links: seq<Link>)
    requires links != []
    ensures var core := RenderLinks(SetLast(links, ""));
      && core != "" && !Space(core[0]) && !Space(core[|core| - 1])
      && RenderLinks(links) == core + LastLit(links)
  {
    RenderEnds(links);
    LastIs(links);
    RenderSetLast(links, LastLit(links));
  }

  /** Trimming a text with tokens trims the literal text at its two ends. */
  lemma TrimRender(head: string, links: seq<Link>)
    requires links != []
    ensures TrimSpace(head + RenderLinks(links)) ==
      TrimLeft(head) + RenderLinks(SetLast(links, TrimRight(LastLit(links))))
  {
    RenderApart(links);
    RenderSetLast(links, TrimRight(LastLit(links)));
    TrimAround(head, RenderLinks(SetLast(links, "")), LastLit(links));
  }

  lemma KeepFront(l: Link, more: seq<Link>, remove: set<string>)
    requires l.name !in remove && more != []
    ensures Keep([l] + more, remove) ==
      [Link(l.name, if more[0].name !in remove then l.lit else if Keep(more, remove) == [] then "" else " ")]
      + Keep(more, remove)
  {
    assert ([l] + more)[1..] == more;
  }

  /** Keeping everything only trims the end. */
  lemma {:induction false} KeepAll(links: seq<Link>, remove: set<string>)
    requires links != [] && AllKept(links, remove)
    ensures Keep(links, remove) == SetLast(links, TrimRight(LastLit(links)))
  {
    if |links| > 1 {
      KeepAll(links[1..], remove);
      assert Keep(links, remove) == [links[0]] + Keep(links[1..], remove);
    }
  }

  lemma SetLastFront(links: seq<Link>, lit: string)
    requires links != []
    ensures |links| == 1 ==> SetLast(links, lit) == [Link(links[0].name, lit)]
    ensures |links| > 1 ==> SetLast(links, lit) == [links[0]] + SetLast(links[1..], lit)
  {
  }

  lemma KeepBeforeStep(l: Link, more: seq<Link>, rest: seq<Link>, lit: string, remove: set<string>)
    requires l.name !in remove && more != [] && more[0].name !in remove
    requires Keep(more + rest, remove) == SetLast(more, lit) + Keep(rest, remove)
    ensures Keep([l] + (more + rest), remove) == ([l] + SetLast(more, lit)) + Keep(rest, remove)
  {
    KeepFront(l, more + rest, remove);
    assert (more + rest)[0] == more[0];
    assert [l] + (SetLast(more, lit) + Keep(rest, remove)) == ([l] + SetLast(more, lit)) + Keep(rest, remove);
  }

  lemma KeepBeforeOne(l: Link, rest: seq<Link>, lit: string, remove: set<string>)
    requires l.name !in remove && rest != [] && rest[0].name in remove
    requires lit == if Keep(rest, remove) == [] then "" else " "
    ensures Keep([l] + rest, remove) == SetLast([l], lit) + Keep(rest, remove)
  {
    KeepFront(l, rest, remove);
    SetLastFront([l], lit);
  }

  lemma KeptApart(kept: seq<Link>, rest: seq<Link>, remove: set<string>)
    requires |kept| > 1 && AllKept(kept, remove)
    ensures kept + rest == [kept[0]] + (kept[1..] + rest)
    ensures kept[0].name !in remove && kept[1..][0].name !in remove && AllKept(kept[1..], remove)
  {
  }

  /** Kept tokens before a removed one. */
  lemma {:induction false} KeepBefore(kept: seq<Link>, rest: seq<Link>, lit: string, remove: set<string>)
    requires kept != [] && AllKept(kept, remove) && rest != [] && rest[0].name in remove
    requires lit == if Keep(rest, remove) == [] then "" else " "
    ensures Keep(kept + rest, remove) == SetLast(kept, lit) + Keep(rest, remove)
  {
    if |kept| == 1 {
      KeepBeforeOne(kept[0], rest, lit, remove);
      assert kept == [kept[0]];
    } else {
      KeptApart(kept, rest, remove);
      KeepBefore(kept[1..], rest, lit, remove);
      KeepBeforeStep(kept[0], kept[1..], rest, lit, remove);
      SetLastFront(kept, lit);
    }
  }

  /** The text the kept runs make, from the kept tokens of `run` on. */
  function Expected(run: Chain, rest: seq<Link>, leftRemoved: bool, remove: set<string>): string {
    var kept := Keep(run.links + rest, remove);
    (if leftRemoved || run.links + rest == [] || (run.links + rest)[0].name in remove then "" else TrimLeft(run.head))
    + RenderLinks(kept)
  }

  lemma RunAlone(run: Chain, leftRemoved: bool, remove: set<string>)
    requires AllKept(run.links, remove)
    ensures Join(Runs(run, [], leftRemoved, remove), " ") == Expected(run, [], leftRemoved, remove)
    ensures Runs(run, [], leftRemoved, remove) == [] <==> Keep(run.links + [], remove) == []
  {
    assert run.links + [] == run.links;
    if run.links != [] { KeepAll(run.links, remove); }
  }

  lemma RunTakesKept(run: Chain, rest: seq<Link>)
    requires rest != []
    ensures run.links + rest == (run.links + [rest[0]]) + rest[1..]
  {
  }

  /** Joining the runs with a space is what filtering along the tokens means. */
  lemma {:induction false} RunsMakeKeep(run: Chain, rest: seq<Link>, leftRemoved: bool, remove: set<string>)
    requires AllKept(run.links, remove)
    ensures Join(Runs(run, rest, leftRemoved, remove), " ") == Expected(run, rest, leftRemoved, remove)
    ensures Runs(run, rest, leftRemoved, remove) == [] <==> Keep(run.links + rest, remove) == []
    decreases |rest|
  {
    if rest == [] {
      RunAlone(run, leftRemoved, remove);
    } else if rest[0].name in remove {
      RunsMakeKeep(Chain(rest[0].lit, []), rest[1..], true, remove);
      assert [] + rest[1..] == rest[1..];
      RunBeforeRemoved(run, rest, leftRemoved, remove);
    } else {
      RunsMakeKeep(run.(links := run.links + [rest[0]]), rest[1..], leftRemoved, remove);
      RunTakesKept(run, rest);
    }
  }

  /** A run of kept tokens followed by what comes after a removed one. */
  lemma RunBeforeRemoved(run: Chain, rest: seq<Link>, leftRemoved: bool, remove: set<string>)
    requires AllKept(run.links, remove) && rest != [] && rest[0].name in remove
    requires var later := Runs(Chain(rest[0].lit, []), rest[1..], true, remove);
      Join(later, " ") == RenderLinks(Keep(rest[1..], remove)) && (later == [] <==> Keep(rest[1..], remove) == [])
    ensures Join(Runs(run, rest, leftRemoved, remove), " ") == Expected(run, rest, leftRemoved, remove)
    ensures Runs(run, rest, leftRemoved, remove) == [] <==> Keep(run.links + rest, remove) == []
  {
    var later, kept := Runs(Chain(rest[0].lit, []), rest[1..], true, remove), Keep(rest, remove);
    assert kept == Keep(rest[1..], remove);
    if run.links == [] {
      assert run.links + rest == rest;
      assert [] + later == later;
    } else {
      var head := if leftRemoved then "" else TrimLeft(run.head);
      KeepBefore(run.links, rest, if kept == [] then "" else " ", remove);
      assert (run.links + rest)[0] == run.links[0];
      JoinFront(head, run.links, later, kept);
    }
  }

  lemma JoinFront(head: string, links: seq<Link>, later: seq<string>, kept: seq<Link>)
    requires links != [] && Join(later, " ") == RenderLinks(kept) && (later == [] <==> kept == [])
    ensures Join([head + RenderLinks(SetLast(links, ""))] + later, " ") ==
      head + RenderLinks(SetLast(links, if kept == [] then "" else " ") + kept)
  {
    var frag, lit := head + RenderLinks(SetLast(links, "")), if kept == [] then "" else " ";
    RenderConcat(SetLast(links, lit), kept);
    RenderSetLast(links, lit);
    assert ([frag] + later)[1..] == later;
    if kept == [] {
      assert [frag] + later == [frag];
    } else {
      assert Join([frag] + later, " ") == frag + " " + Join(later, " ");
    }
  }

  // ---------- the filter as the code runs it ----------

  /** Appends the run between two removed tokens: its literal text touching a removed token goes with it. */
  method AppendKeptRun(runs: seq<string>, run: string, leftRemoved: bool, rightRemoved: bool) returns (out: seq<string>)
    ensures out == runs + RunText(run, leftRemoved, rightRemoved)
  {
    var tokens := RemarkTokens(run);
    if |tokens| == 0 {
      return runs;
    }
    RunBounds(run);
    var start, end := 0, |run|;
    if leftRemoved {
      start := tokens[0].start;
    }
    if rightRemoved {
      end := tokens[|tokens| - 1].end;
    }
    RunFragment(run, leftRemoved, rightRemoved);
    var frag := TrimSpace(run[start..end]);
    out := runs;
    if frag != "" {
      out := out + [frag];
    }
  }

  /** Where the first token of a run begins and its last token ends. */
  lemma RunBounds(run: string)
    requires RemarkTokens(run) != []
    ensures var (c, tokens) := (Parse(run), RemarkTokens(run));
      && c.links != [] && tokens[0].start == |c.head|
      && tokens[|tokens| - 1].end == |c.head| + |RenderLinks(SetLast(c.links, ""))|
  {
    PositionEnds(Parse(run).links, |Parse(run).head|);
  }

  lemma RunFragment(run: string, leftRemoved: bool, rightRemoved: bool)
    requires Parse(run).links != []
    ensures var c := Parse(run);
      var start := if leftRemoved then |c.head| else 0;
      var end := if rightRemoved then |c.head| + |RenderLinks(SetLast(c.links, ""))| else |run|;
      && start <= end <= |run|
      && TrimSpace(run[start..end]) != "" && RunText(run, leftRemoved, rightRemoved) == [TrimSpace(run[start..end])]
  {
    var c := Parse(run);
    RenderParse(run);
    TrimSlice(c, leftRemoved, rightRemoved);
    RenderEnds(c.links);
    RenderSetLast(c.links, if rightRemoved then "" else TrimRight(LastLit(c.links)));
  }

  lemma {:induction false} PositionEnds(links: seq<Link>, at: nat)
    requires links != []
    ensures var t := Positions(links, at);
      && t != [] && t[0].start == at
      && t[|t| - 1].end == at + |RenderLinks(SetLast(links, ""))|
  {
    if |links| == 1 {
      assert SetLast(links, "") == [Link(links[0].name, "")];
    } else {
      PositionEnds(links[1..], at + |Placeholder(links[0].name)| + |links[0].lit|);
      assert SetLast(links, "") == [links[0]] + SetLast(links[1..], "");
    }
  }

  lemma SliceOf(head: string, core: string, lit: string, cutLeft: bool, cutRight: bool)
    ensures var text := head + (core + lit);
      var start := if cutLeft then |head| else 0;
      var end := if cutRight then |head| + |core| else |text|;
      text[start..end] == (if cutLeft then "" else head) + (core + if cutRight then "" else lit)
  {
  }

  /** The part of a run that is trimmed and kept. */
  lemma TrimSlice(c: Chain, leftRemoved: bool, rightRemoved: bool)
    requires c.links != []
    ensures var text := Render(c);
      var start := if leftRemoved then |c.head| else 0;
      var end := if rightRemoved then |c.head| + |RenderLinks(SetLast(c.links, ""))| else |text|;
      && start <= end <= |text|
      && TrimSpace(text[start..end]) == RunOf(c, leftRemoved, rightRemoved)[0]
  {
    var core, lit := RenderLinks(SetLast(c.links, "")), LastLit(c.links);
    RenderApart(c.links);
    SliceOf(c.head, core, lit, leftRemoved, rightRemoved);
    RenderSetLast(c.links, if rightRemoved then "" else TrimRight(lit));
    TrimAround(if leftRemoved then "" else c.head, core, if rightRemoved then "" else lit);
  }

  /** Where the loop over the tokens stands: text done with, the run since the last removed token, the rest. */
  ghost predicate Stands(seg: string, done: string, run: Chain, rest: seq<Link>) {
    Proper(run) && ProperLinks(rest) && seg == done + (Render(run) + RenderLinks(rest))
  }

  lemma StandsAtRun(seg: string, done: string, run: Chain, rest: seq<Link>)
    requires Stands(seg, done, run, rest)
    ensures var end := |done| + |Render(run)|;
      end <= |seg| && seg[|done|..end] == Render(run) && Parse(Render(run)) == run
    ensures rest == [] ==> seg[|done|..] == Render(run)
  {
    var end := |done| + |Render(run)|;
    assert seg == done + Render(run) + RenderLinks(rest);
    ParseRender(run);
    if rest == [] { assert RenderLinks(rest) == ""; }
  }

  lemma RenderMore(run: Chain, l: Link)
    ensures Render(run.(links := run.links + [l])) == Render(run) + (Placeholder(l.name) + l.lit)
  {
    RenderConcat(run.links, [l]);
    assert RenderLinks([l]) == Placeholder(l.name) + l.lit;
  }

  lemma Regrouped(done: string, text: string, token: string, lit: string, tail: string)
    ensures done + (text + (token + (lit + tail))) == done + ((text + (token + lit)) + tail)
    ensures done + (text + (token + (lit + tail))) == ((done + text) + token) + (lit + tail)
  {
  }

  lemma ProperMore(run: Chain, rest: seq<Link>)
    requires Proper(run) && ProperLinks(rest) && rest != []
    ensures Proper(run.(links := run.links + [rest[0]])) && ProperLinks(rest[1..]) && Proper(Chain(rest[0].lit, []))
  {
  }

  lemma RenderFront(links: seq<Link>)
    requires links != []
    ensures RenderLinks(links) == Placeholder(links[0].name) + (links[0].lit + RenderLinks(links[1..]))
  {
  }

  lemma RenderHead(head: string)
    ensures Render(Chain(head, [])) == head
  {
    assert head + "" == head;
  }

  lemma StandsAfterKept(seg: string, done: string, run: Chain, rest: seq<Link>)
    requires Stands(seg, done, run, rest) && rest != []
    ensures Stands(seg, done, run.(links := run.links + [rest[0]]), rest[1..])
  {
    RenderMore(run, rest[0]);
    ProperMore(run, rest);
    RenderFront(rest);
    Regrouped(done, Render(run), Placeholder(rest[0].name), rest[0].lit, RenderLinks(rest[1..]));
  }

  lemma StandsAfterRemoved(seg: string, done: string, run: Chain, rest: seq<Link>)
    requires Stands(seg, done, run, rest) && rest != []
    ensures Stands(seg, done + Render(run) + Placeholder(rest[0].name), Chain(rest[0].lit, []), rest[1..])
    ensures Render(Chain(rest[0].lit, [])) == rest[0].lit
  {
    RenderHead(rest[0].lit);
    ProperMore(run, rest);
    RenderFront(rest);
    Regrouped(done, Render(run), Placeholder(rest[0].name), rest[0].lit, RenderLinks(rest[1..]));
  }

  /** Where the loop stands, with whether a removed token is on the left of the run. */
  datatype Cursor = Cursor(done: string, run: Chain, rest: seq<Link>, leftRemoved: bool)

  ghost predicate Placed(tokens: seq<Token>, k: nat, c: Cursor) {
    k <= |tokens| && tokens[k..] == Positions(c.rest, |c.done| + |Render(c.run)|)
  }

  ghost predicate At(seg: string, tokens: seq<Token>, k: nat, c: Cursor) {
    Stands(seg, c.done, c.run, c.rest) && Placed(tokens, k, c)
  }

  function ToCome(c: Cursor, remove: set<string>): seq<string> {
    Runs(c.run, c.rest, c.leftRemoved, remove)
  }

  function PastKept(c: Cursor): Cursor
    requires c.rest != []
  {
    Cursor(c.done, c.run.(links := c.run.links + [c.rest[0]]), c.rest[1..], c.leftRemoved)
  }

  function PastRemoved(c: Cursor): Cursor
    requires c.rest != []
  {
    Cursor(c.done + Render(c.run) + Placeholder(c.rest[0].name), Chain(c.rest[0].lit, []), c.rest[1..], true)
  }

  lemma StandsFirst(seg: string, head: string, links: seq<Link>)
    requires Proper(Chain(head, links)) && Render(Chain(head, links)) == seg
    ensures Stands(seg, "", Chain(head, []), links)
  {
    RenderHead(head);
    assert "" + (head + RenderLinks(links)) == head + RenderLinks(links);
  }

  lemma AtFirst(seg: string, tokens: seq<Token>)
    requires tokens == RemarkTokens(seg)
    ensures At(seg, tokens, 0, Cursor("", Chain(Parse(seg).head, []), Parse(seg).links, false))
  {
    var head := Parse(seg).head;
    RenderParse(seg);
    ParseIsProper(seg);
    StandsFirst(seg, head, Parse(seg).links);
    RenderHead(head);
    assert tokens[0..] == tokens;
  }

  lemma AtToken(tokens: seq<Token>, k: nat, c: Cursor)
    requires Placed(tokens, k, c) && k < |tokens|
    ensures c.rest != [] && tokens[k].name == c.rest[0].name
    ensures tokens[k].start == |c.done| + |Render(c.run)|
    ensures tokens[k].end == tokens[k].start + |Placeholder(c.rest[0].name)|
    ensures tokens[k + 1..] == Positions(c.rest[1..], tokens[k].end + |c.rest[0].lit|)
  {
    assert tokens[k] == tokens[k..][0] && tokens[k + 1..] == tokens[k..][1..];
  }

  lemma ToComePastKept(c: Cursor, remove: set<string>)
    requires c.rest != [] && c.rest[0].name !in remove
    ensures ToCome(PastKept(c), remove) == ToCome(c, remove)
  {}

  lemma PlacedAfterKept(tokens: seq<Token>, k: nat, c: Cursor)
    requires Placed(tokens, k, c) && k < |tokens|
    ensures c.rest != [] && tokens[k].name == c.rest[0].name && Placed(tokens, k + 1, PastKept(c))
  {
    AtToken(tokens, k, c);
    RenderMore(c.run, c.rest[0]);
  }

  lemma AfterKept(seg: string, tokens: seq<Token>, k: nat, c: Cursor)
    requires At(seg, tokens, k, c) && k < |tokens|
    ensures c.rest != [] && At(seg, tokens, k + 1, PastKept(c)) && tokens[k].name == c.rest[0].name
  {
    PlacedAfterKept(tokens, k, c);
    StandsAfterKept(seg, c.done, c.run, c.rest);
  }

  lemma ToComePastRemoved(c: Cursor, remove: set<string>)
    requires c.rest != [] && c.rest[0].name in remove
    ensures ToCome(c, remove) == RunOf(c.run, c.leftRemoved, true) + ToCome(PastRemoved(c), remove)
  {}

  lemma PlacedAfterRemoved(tokens: seq<Token>, k: nat, c: Cursor)
    requires Placed(tokens, k, c) && k < |tokens|
    ensures c.rest != [] && tokens[k].name == c.rest[0].name && tokens[k].start == |c.done| + |Render(c.run)|
    ensures Placed(tokens, k + 1, PastRemoved(c)) && |PastRemoved(c).done| == tokens[k].end
  {
    AtToken(tokens, k, c);
    assert Render(Chain(c.rest[0].lit, [])) == c.rest[0].lit;
  }

  lemma AfterRemoved(seg: string, tokens: seq<Token>, k: nat, c: Cursor)
    requires At(seg, tokens, k, c) && k < |tokens|
    ensures c.rest != [] && tokens[k].name == c.rest[0].name
    ensures At(seg, tokens, k + 1, PastRemoved(c)) && |PastRemoved(c).done| == tokens[k].end
    ensures tokens[k].start == |c.done| + |Render(c.run)|
  {
    PlacedAfterRemoved(tokens, k, c);
    StandsAfterRemoved(seg, c.done, c.run, c.rest);
  }

  lemma AtEnd(seg: string, tokens: seq<Token>, c: Cursor, remove: set<string>)
    requires At(seg, tokens, |tokens|, c)
    ensures |c.done| <= |seg| && Parse(seg[|c.done|..]) == c.run
    ensures ToCome(c, remove) == RunOf(c.run, c.leftRemoved, false)
  {
    assert c.rest == [];
    StandsAtRun(seg, c.done, c.run, c.rest);
  }

  /** What a run of the segment contributes. */
  function RunText(run: string, leftRemoved: bool, rightRemoved: bool): seq<string> {
    RunOf(Parse(run), leftRemoved, rightRemoved)
  }

  /** The tokens lie one after the other. */
  ghost predicate Ordered(tokens: seq<Token>, at: nat, end: nat) {
    && (forall i :: 0 <= i < |tokens| ==> at <= tokens[i].start < tokens[i].end <= end)
    && (forall i, j :: 0 <= i < j < |tokens| ==> tokens[i].end <= tokens[j].start)
  }

  lemma {:induction false} PositionsOrdered(links: seq<Link>, at: nat)
    ensures Ordered(Positions(links, at), at, at + |RenderLinks(links)|)
  {
    if links != [] {
      var end := at + |Placeholder(links[0].name)|;
      PositionsOrdered(links[1..], end + |links[0].lit|);
      var rest := Positions(links[1..], end + |links[0].lit|);
      assert Positions(links, at) == [Token(links[0].name, at, end)] + rest;
      assert forall i :: 0 <= i < |rest| ==> end <= rest[i].start;
    }
  }

  /** The runs from the k-th token on, as the loop cuts them. */
  ghost function LoopRuns(seg: string, tokens: seq<Token>, k: nat, runStart: nat, leftRemoved: bool,
                          remove: set<string>): seq<string>
    requires Ordered(tokens, 0, |seg|) && k <= |tokens| && runStart <= |seg|
    requires k < |tokens| ==> runStart <= tokens[k].start
    decreases |tokens| - k
  {
    if k == |tokens| then RunText(seg[runStart..], leftRemoved, false)
    else if tokens[k].name !in remove then LoopRuns(seg, tokens, k + 1, runStart, leftRemoved, remove)
    else
      RunText(seg[runStart..tokens[k].start], leftRemoved, true)
      + LoopRuns(seg, tokens, k + 1, tokens[k].end, true, remove)
  }

  /** What the loop appends at a removed token is what the run there contributes. */
  lemma RunTextAt(seg: string, tokens: seq<Token>, k: nat, c: Cursor)
    requires At(seg, tokens, k, c) && k < |tokens|
    ensures c.rest != [] && tokens[k].name == c.rest[0].name && |c.done| <= tokens[k].start <= |seg|
    ensures RunText(seg[|c.done|..tokens[k].start], c.leftRemoved, true) == RunOf(c.run, c.leftRemoved, true)
  {
    AtToken(tokens, k, c);
    StandsAtRun(seg, c.done, c.run, c.rest);
    assert seg[|c.done|..tokens[k].start] == Render(c.run);
  }

  lemma LoopPastKept(seg: string, tokens: seq<Token>, k: nat, c: Cursor, remove: set<string>)
    requires Ordered(tokens, 0, |seg|) && k < |tokens| && tokens[k].name !in remove
    requires c.rest != [] && tokens[k].name == c.rest[0].name
    requires |c.done| <= tokens[k].start && (k + 1 < |tokens| ==> |c.done| <= tokens[k + 1].start)
    requires LoopRuns(seg, tokens, k + 1, |c.done|, c.leftRemoved, remove) == ToCome(PastKept(c), remove)
    ensures LoopRuns(seg, tokens, k, |c.done|, c.leftRemoved, remove) == ToCome(c, remove)
  {
    ToComePastKept(c, remove);
  }

  lemma LoopPastRemoved(seg: string, tokens: seq<Token>, k: nat, c: Cursor, remove: set<string>)
    requires Ordered(tokens, 0, |seg|) && k < |tokens| && tokens[k].name in remove
    requires c.rest != [] && tokens[k].name == c.rest[0].name && |c.done| <= tokens[k].start
    requires RunText(seg[|c.done|..tokens[k].start], c.leftRemoved, true) == RunOf(c.run, c.leftRemoved, true)
    requires LoopRuns(seg, tokens, k + 1, tokens[k].end, true, remove) == ToCome(PastRemoved(c), remove)
    ensures LoopRuns(seg, tokens, k, |c.done|, c.leftRemoved, remove) == ToCome(c, remove)
  {
    ToComePastRemoved(c, remove);
  }

  lemma {:induction false} LoopCutsRuns(seg: string, tokens: seq<Token>, k: nat, c: Cursor, remove: set<string>)
    requires Ordered(tokens, 0, |seg|) && At(seg, tokens, k, c)
    ensures |c.done| <= |seg| && (k < |tokens| ==> |c.done| <= tokens[k].start)
    ensures LoopRuns(seg, tokens, k, |c.done|, c.leftRemoved, remove) == ToCome(c, remove)
    decreases |tokens| - k
  {
    if k == |tokens| {
      AtEnd(seg, tokens, c, remove);
    } else {
      RunTextAt(seg, tokens, k, c);
      if tokens[k].name !in remove {
        AfterKept(seg, tokens, k, c);
        LoopCutsRuns(seg, tokens, k + 1, PastKept(c), remove);
        LoopPastKept(seg, tokens, k, c, remove);
      } else {
        AfterRemoved(seg, tokens, k, c);
        LoopCutsRuns(seg, tokens, k + 1, PastRemoved(c), remove);
        LoopPastRemoved(seg, tokens, k, c, remove);
      }
    }
  }

  lemma SegmentTokens(seg: string)
    ensures Ordered(RemarkTokens(seg), 0, |seg|)
  {
    RenderParse(seg);
    PositionsOrdered(Parse(seg).links, |Parse(seg).head|);
  }

  /** The loop that cuts a segment into the runs between its removed tokens. */
  method CutRuns(seg: string, tokens: seq<Token>, remove: set<string>) returns (runs: seq<string>)
    requires Ordered(tokens, 0, |seg|)
    ensures runs == LoopRuns(seg, tokens, 0, 0, false, remove)
  {
    runs := [];
    var runStart, leftRemoved := 0, false;
    for k := 0 to |tokens|
      invariant 0 <= runStart <= |seg| && (k < |tokens| ==> runStart <= tokens[k].start)
      invariant runs + LoopRuns(seg, tokens, k, runStart, leftRemoved, remove) ==
                LoopRuns(seg, tokens, 0, 0, false, remove)
    {
      var tok := tokens[k];
      if tok.name !in remove {
        continue;
      }
      runs := AppendKeptRun(runs, seg[runStart..tok.start], leftRemoved, true);
      runStart, leftRemoved := tok.end, true;
    }
    runs := AppendKeptRun(runs, seg[runStart..], leftRemoved, false);
  }

  method AnyRemoved(tokens: seq<Token>, remove: set<string>) returns (hasRemove: bool)
    ensures hasRemove <==> exists i :: 0 <= i < |tokens| && tokens[i].name in remove
  {
    for k := 0 to |tokens|
      invariant forall i :: 0 <= i < k ==> tokens[i].name !in remove
    {
      if tokens[k].name in remove {
        return true;
      }
    }
    return false;
  }

  method FilterRemarkSegment(seg: string, remove: set<string>) returns (out: string)
    ensures out == FilterSegment(seg, remove)
  {
    var tokens := RemarkTokens(seg);
    var hasRemove := AnyRemoved(tokens, remove);
    if !hasRemove {
      NothingToRemove(seg, remove);
      return TrimSpace(seg);
    }
    SegmentTokens(seg);
    var runs := CutRuns(seg, tokens, remove);
    RunsAreFilter(seg, remove);
    out := Join(runs, " ");
  }

  lemma NothingToRemove(seg: string, remove: set<string>)
    requires forall i :: 0 <= i < |RemarkTokens(seg)| ==> RemarkTokens(seg)[i].name !in remove
    ensures FilterSegment(seg, remove) == TrimSpace(seg)
  {
    var c := Parse(seg);
    RenderParse(seg);
    NamesAtPositions(c.links, |c.head|);
    if c.links == [] {
      assert c.head + "" == c.head && TrimSpace(c.head) + "" == TrimSpace(c.head);
    } else {
      assert forall i :: 0 <= i < |c.links| ==> RemarkTokens(seg)[i].name == c.links[i].name;
      KeepAll(c.links, remove);
      TrimRender(c.head, c.links);
    }
  }

  lemma RunsAreFilter(seg: string, remove: set<string>)
    requires RemarkTokens(seg) != [] && Ordered(RemarkTokens(seg), 0, |seg|)
    ensures Join(LoopRuns(seg, RemarkTokens(seg), 0, 0, false, remove), " ") == FilterSegment(seg, remove)
  {
    var c := Parse(seg);
    AtFirst(seg, RemarkTokens(seg));
    LoopCutsRuns(seg, RemarkTokens(seg), 0, Cursor("", Chain(c.head, []), c.links, false), remove);
    RunsMakeKeep(Chain(c.head, []), c.links, false, remove);
    assert [] + c.links == c.links;
  }

  lemma {:induction false} NamesAtPositions(links: seq<Link>, at: nat)
    ensures |Positions(links, at)| == |links|
    ensures forall i :: 0 <= i < |links| ==> Positions(links, at)[i].name == links[i].name
  {
    if links != [] { NamesAtPositions(links[1..], at + |Placeholder(links[0].name)| + |links[0].lit|); }
  }

  lemma AppendNonEmpty(kept: seq<string>, seg: string, rest: seq<string>)
    ensures kept + (NonEmpty(seg) + rest) == (if seg == "" then kept else kept + [seg]) + rest
  {
  }

  lemma KeptStep(kept: seq<string>, segs: seq<string>, i: nat, seg: string, remove: set<string>)
    requires i < |segs| && seg == FilterSegment(segs[i], remove)
    ensures kept + KeptSegments(segs[i..], remove) ==
      (if seg == "" then kept else kept + [seg]) + KeptSegments(segs[i + 1..], remove)
  {
    assert segs[i..][0] == segs[i] && segs[i..][1..] == segs[i + 1..];
    AppendNonEmpty(kept, seg, KeptSegments(segs[i + 1..], remove));
  }

  method FilterRemarkTemplate(template: string, remove: set<string>) returns (out: string)
    ensures out == FilterTemplate(template, remove)
  {
    var segments := Split(template, '|');
    var kept: seq<string> := [];
    ghost var goal := KeptSegments(segments, remove);
    assert segments[0..] == segments;
    for i := 0 to |segments|
      invariant kept + KeptSegments(segments[i..], remove) == goal
    {
      var seg := FilterRemarkSegment(segments[i], remove);
      KeptStep(kept, segments, i, seg, remove);
      if seg != "" {
        kept := kept + [seg];
      }
    }
    assert segments[|segments|..] == [] && kept + [] == kept;
    out := Join(kept, "|");
  }
}
