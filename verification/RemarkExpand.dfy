/** Filling a remark template with a client's values, and the plain remark it must agree with. */
module RemarkExpand {
  import opened Joining
  import opened RemarkBraces
  import opened RemarkFilter
  import opened RemarkText
  import opened Trimming

  const UNLIMITED_MARK := "\U{221E}"
  const UNLIMITED_DROP_TOKENS := {"TRAFFIC_LEFT", "TRAFFIC_TOTAL", "DAYS_LEFT", "TIME_LEFT"}

  /** The value of every token for one client. */
  type Values = string -> string

  /** A value worth showing: not empty, and not the unlimited mark of a quota or expiry token. */
  predicate Worth(value: Values, name: string) {
    value(name) != "" && (name !in UNLIMITED_DROP_TOKENS || value(name) != UNLIMITED_MARK)
  }

  predicate Informative(value: Values, names: seq<string>) {
    exists i :: 0 <= i < |names| && Worth(value, names[i])
  }

  // ---------- what expansion means, along the tokens ----------

  /** A lone hyphen between two tokens goes when nothing was written yet or nothing follows. */
  function Between(l: Link, next: string, value: Values, wrote: bool): string {
    if TrimSpace(l.lit) == "-" && (!wrote || value(next) == "") then "" else l.lit
  }

  function ExpandLinks(links: seq<Link>, value: Values, wrote: bool): string {
    if links == [] then "" else
      var v := value(links[0].name);
      if |links| == 1 then v + links[0].lit
      else
        v + Between(links[0], links[1].name, value, wrote || v != "") + ExpandLinks(links[1..], value, wrote || v != "")
  }

  /** The expansion of a segment, and whether it is dropped. */
  function ExpandSegment(seg: string, value: Values): (string, bool) {
    var c := Parse(seg);
    (c.head + ExpandLinks(c.links, value, false), c.links != [] && !Informative(value, LinkNames(c.links)))
  }

  function ExpandSegments(segs: seq<string>, value: Values): seq<string> {
    if segs == [] then [] else
      (if ExpandSegment(segs[0], value).1 then [] else [ExpandSegment(segs[0], value).0])
      + ExpandSegments(segs[1..], value)
  }

  predicate HasDoubleBrace(s: string) {
    exists i :: 0 <= i < |s| - 1 && s[i] == '{' && s[i + 1] == '{'
  }

  /** The whole expansion, for a table of user-interface names. */
  function ExpandRemarkVars(ui: map<string, string>, template: string, value: Values): string {
    var t := Translate(ui, template, false);
    if !HasDoubleBrace(t) then t else Join(ExpandSegments(Split(t, '|'), value), "|")
  }

  // ---------- the code ----------

  /** The text a segment still gives from the i-th token on, copying from `start`. */
  ghost function LoopText(seg: string, tokens: seq<Token>, i: nat, start: nat, wrote: bool, value: Values): string
    requires Ordered(tokens, 0, |seg|) && i <= |tokens| && start <= |seg|
    requires i < |tokens| ==> start <= tokens[i].start
    decreases |tokens| - i
  {
    if i == |tokens| then seg[start..] else
      var v := value(tokens[i].name);
      seg[start..tokens[i].start] + v +
      LoopText(seg, tokens, i + 1, NextStart(seg, tokens, i, wrote || v != "", value), wrote || v != "", value)
  }

  /** Where copying goes on after the i-th token. */
  function NextStart(seg: string, tokens: seq<Token>, i: nat, wrote: bool, value: Values): (start: nat)
    requires Ordered(tokens, 0, |seg|) && i < |tokens|
    ensures start <= |seg| && (i + 1 < |tokens| ==> start <= tokens[i + 1].start)
  {
    if i + 1 < |tokens| && TrimSpace(seg[tokens[i].end..tokens[i + 1].start]) == "-"
       && (!wrote || value(tokens[i + 1].name) == "")
    then tokens[i + 1].start
    else tokens[i].end
  }

  function TokenNameList(tokens: seq<Token>): seq<string> {
    seq(|tokens|, i requires 0 <= i < |tokens| => tokens[i].name)
  }

  method ResolveTokens(tokens: seq<Token>, value: Values) returns (values: seq<string>, hasOtherValue: bool)
    ensures |values| == |tokens| && forall i :: 0 <= i < |tokens| ==> values[i] == value(tokens[i].name)
    ensures hasOtherValue <==> Informative(value, TokenNameList(tokens))
  {
    values, hasOtherValue := [], false;
    for i := 0 to |tokens|
      invariant |values| == i && forall k :: 0 <= k < i ==> values[k] == value(tokens[k].name)
      invariant hasOtherValue <==> exists k :: 0 <= k < i && Worth(value, tokens[k].name)
    {
      var val := value(tokens[i].name);
      values := values + [val];
      if val != "" && (tokens[i].name !in UNLIMITED_DROP_TOKENS || val != UNLIMITED_MARK) {
        assert Worth(value, tokens[i].name);
        hasOtherValue := true;
      }
    }
    if hasOtherValue {
      var k :| 0 <= k < |tokens| && Worth(value, tokens[k].name);
      assert Worth(value, TokenNameList(tokens)[k]);
    }
  }

  method WriteSegment(seg: string, tokens: seq<Token>, values: seq<string>, ghost value: Values)
      returns (result: string)
    requires Ordered(tokens, 0, |seg|)
    requires |values| == |tokens| && forall i :: 0 <= i < |tokens| ==> values[i] == value(tokens[i].name)
    ensures result == LoopText(seg, tokens, 0, 0, false, value)
  {
    result := "";
    var start, wroteValue := 0, false;
    ghost var left := LoopText(seg, tokens, 0, 0, false, value);
    ghost var goal := left;
    for i := 0 to |tokens|
      invariant 0 <= start <= |seg| && (i < |tokens| ==> start <= tokens[i].start)
      invariant left == LoopText(seg, tokens, i, start, wroteValue, value) && goal == result + left
    {
      var tok := tokens[i];
      ghost var copied, wrote := seg[start..tok.start], wroteValue || values[i] != "";
      left := LoopText(seg, tokens, i + 1, NextStart(seg, tokens, i, wrote, value), wrote, value);
      Reassociate(result, copied + values[i], left);
      Reassociate(result, copied, values[i]);
      result := result + seg[start..tok.start] + values[i];
      wroteValue := wroteValue || values[i] != "";
      start := tok.end;
      if i + 1 < |tokens| {
        var between := seg[start..tokens[i + 1].start];
        if TrimSpace(between) == "-" && (!wroteValue || values[i + 1] == "") {
          start := tokens[i + 1].start;
        }
      }
    }
    result := result + seg[start..];
  }

  method ExpandOne(seg: string, value: Values) returns (out: string, drop: bool)
    ensures (out, drop) == ExpandSegment(seg, value)
  {
    var tokens := RemarkTokens(seg);
    SegmentTokens(seg);
    var values, hasOtherValue := ResolveTokens(tokens, value);
    out := WriteSegment(seg, tokens, values, value);
    drop := |tokens| > 0 && !hasOtherValue;
    HereAtFirst(seg);
    LoopExpands(seg, tokens, Parse(seg), value);
    NamesOfTokens(seg);
  }

  lemma {:induction false} LinkNamesAt(links: seq<Link>)
    ensures |LinkNames(links)| == |links| && forall i :: 0 <= i < |links| ==> LinkNames(links)[i] == links[i].name
  {
    if links != [] { LinkNamesAt(links[1..]); }
  }

  lemma NamesOfTokens(seg: string)
    ensures TokenNameList(RemarkTokens(seg)) == LinkNames(Parse(seg).links) && |RemarkTokens(seg)| == |Parse(seg).links|
  {
    NamesAtPositions(Parse(seg).links, |Parse(seg).head|);
    LinkNamesAt(Parse(seg).links);
  }

  /** The segment is what was done with, the literal text not copied yet, and the rest of the tokens. */
  ghost predicate Here(seg: string, tokens: seq<Token>, i: nat, done: string, lit: string, rest: seq<Link>) {
    && seg == done + (lit + RenderLinks(rest))
    && i <= |tokens| && tokens[i..] == Positions(rest, |done| + |lit|)
  }

  lemma HereAtToken(seg: string, tokens: seq<Token>, i: nat, done: string, lit: string, rest: seq<Link>)
    requires Here(seg, tokens, i, done, lit, rest) && rest != []
    ensures i < |tokens| && tokens[i].name == rest[0].name
    ensures tokens[i].start == |done| + |lit| <= |seg| && seg[|done|..tokens[i].start] == lit
    ensures tokens[i].end == |done + lit + Placeholder(rest[0].name)|
  {
    assert tokens[i] == tokens[i..][0];
  }

  /** The same place, seen from behind the token. */
  lemma HereBehind(seg: string, tokens: seq<Token>, i: nat, done: string, lit: string, rest: seq<Link>)
    requires Here(seg, tokens, i, done, lit, rest) && rest != []
    ensures Here(seg, tokens, i + 1, done + lit + Placeholder(rest[0].name), rest[0].lit, rest[1..])
  {
    assert tokens[i + 1..] == tokens[i..][1..];
    var p, tail := Placeholder(rest[0].name), rest[0].lit + RenderLinks(rest[1..]);
    Reassociate(done, lit, p + tail);
    Reassociate(done + lit, p, tail);
  }

  /** Literal text that is skipped counts as done with. */
  lemma HereSkipping(seg: string, tokens: seq<Token>, i: nat, done: string, lit: string, rest: seq<Link>)
    requires Here(seg, tokens, i, done, lit, rest)
    ensures Here(seg, tokens, i, done + lit, "", rest)
  {
    Reassociate(done, lit, RenderLinks(rest));
    assert "" + RenderLinks(rest) == RenderLinks(rest);
  }

  lemma HereAtEnd(seg: string, tokens: seq<Token>, i: nat, done: string, lit: string)
    requires Here(seg, tokens, i, done, lit, [])
    ensures i == |tokens| && |done| <= |seg| && seg[|done|..] == lit
  {
    assert RenderLinks([]) == "" && lit + "" == lit;
  }

  lemma {:induction false} LoopFollowsLinks(seg: string, tokens: seq<Token>, i: nat, done: string, lit: string,
                                            rest: seq<Link>, wrote: bool, value: Values)
    requires Ordered(tokens, 0, |seg|) && Here(seg, tokens, i, done, lit, rest)
    ensures |done| <= |seg| && (i < |tokens| ==> |done| <= tokens[i].start)
    ensures LoopText(seg, tokens, i, |done|, wrote, value) == lit + ExpandLinks(rest, value, wrote)
    decreases |tokens| - i
  {
    if rest == [] {
      HereAtEnd(seg, tokens, i, done, lit);
      assert lit + "" == lit;
    } else {
      var l, v := rest[0], value(rest[0].name);
      var through := done + lit + Placeholder(l.name);
      HereAtToken(seg, tokens, i, done, lit, rest);
      HereBehind(seg, tokens, i, done, lit, rest);
      LoopStep(seg, tokens, i, done, lit, rest, wrote || v != "", value);
      if |rest| > 1 && Between(l, rest[1].name, value, wrote || v != "") != l.lit {
        HereSkipping(seg, tokens, i + 1, through, l.lit, rest[1..]);
        LoopFollowsLinks(seg, tokens, i + 1, through + l.lit, "", rest[1..], wrote || v != "", value);
        assert "" + ExpandLinks(rest[1..], value, wrote || v != "") == ExpandLinks(rest[1..], value, wrote || v != "");
        assert v + "" == v;
      } else {
        LoopFollowsLinks(seg, tokens, i + 1, through, l.lit, rest[1..], wrote || v != "", value);
        Reassociate(v, l.lit, ExpandLinks(rest[1..], value, wrote || v != ""));
      }
      var next := NextStart(seg, tokens, i, wrote || v != "", value);
      Reassociate(lit, v, LoopText(seg, tokens, i + 1, next, wrote || v != "", value));
    }
  }

  /** Where copying goes on, along the links. */
  lemma LoopStep(seg: string, tokens: seq<Token>, i: nat, done: string, lit: string, rest: seq<Link>,
                 wrote: bool, value: Values)
    requires Ordered(tokens, 0, |seg|) && Here(seg, tokens, i, done, lit, rest) && rest != [] && i < |tokens|
    ensures var through := done + lit + Placeholder(rest[0].name);
      NextStart(seg, tokens, i, wrote, value) ==
      if |rest| > 1 && Between(rest[0], rest[1].name, value, wrote) != rest[0].lit then |through + rest[0].lit|
      else |through|
  {
    HereAtToken(seg, tokens, i, done, lit, rest);
    HereBehind(seg, tokens, i, done, lit, rest);
    if |rest| > 1 {
      HereAtToken(seg, tokens, i + 1, done + lit + Placeholder(rest[0].name), rest[0].lit, rest[1..]);
    } else {
      HereAtEnd(seg, tokens, i + 1, done + lit + Placeholder(rest[0].name), rest[0].lit);
    }
  }

  lemma HereAtFirst(seg: string)
    ensures Here(seg, RemarkTokens(seg), 0, "", Parse(seg).head, Parse(seg).links)
  {
    RenderParse(seg);
    assert RemarkTokens(seg)[0..] == RemarkTokens(seg);
    assert "" + Render(Parse(seg)) == seg;
  }

  lemma LoopExpands(seg: string, tokens: seq<Token>, c: Chain, value: Values)
    requires Ordered(tokens, 0, |seg|) && Here(seg, tokens, 0, "", c.head, c.links)
    ensures LoopText(seg, tokens, 0, 0, false, value) == c.head + ExpandLinks(c.links, value, false)
  {
    LoopFollowsLinks(seg, tokens, 0, "", c.head, c.links, false, value);
  }
}
