/** A hyphenated template against the plain remark built from the same values. */
module RemarkFallback {
  import opened Joining
  import opened RemarkBraces
  import opened RemarkExpand
  import opened RemarkFilter
  import opened RemarkText
  import opened Trimming

  function Filled(parts: seq<string>): seq<string> {
    if parts == [] then [] else NonEmpty(parts[0]) + Filled(parts[1..])
  }

  lemma FilledStep(out: seq<string>, parts: seq<string>, i: nat)
    requires i < |parts|
    ensures out + Filled(parts[i..]) == (if parts[i] == "" then out else out + [parts[i]]) + Filled(parts[i + 1..])
  {
    assert parts[i..][1..] == parts[i + 1..];
  }

  method FallbackRemark(parts: seq<string>) returns (remark: string)
    ensures remark == Join(Filled(parts), "-")
  {
    var out: seq<string> := [];
    ghost var goal := Filled(parts);
    assert parts[0..] == parts;
    for i := 0 to |parts|
      invariant out + Filled(parts[i..]) == goal
    {
      FilledStep(out, parts, i);
      if parts[i] != "" {
        out := out + [parts[i]];
      }
    }
    assert parts[|parts|..] == [] && out + [] == out;
    remark := Join(out, "-");
  }

  method ExpandRemark(ui: map<string, string>, template: string, value: Values) returns (remark: string)
    ensures remark == ExpandRemarkVars(ui, template, value)
  {
    var t := TranslateUISingleBrackets(ui, template);
    if !HasDoubleBrace(t) {
      return t;
    }
    var segments := Split(t, '|');
    var kept: seq<string> := [];
    ghost var goal := ExpandSegments(segments, value);
    assert segments[0..] == segments;
    for i := 0 to |segments|
      invariant kept + ExpandSegments(segments[i..], value) == goal
    {
      var out, drop := ExpandOne(segments[i], value);
      ExpandStep(kept, segments, i, out, drop, value);
      if !drop {
        kept := kept + [out];
      }
    }
    assert segments[|segments|..] == [] && kept + [] == kept;
    remark := Join(kept, "|");
  }

  lemma ExpandStep(kept: seq<string>, segs: seq<string>, i: nat, out: string, drop: bool, value: Values)
    requires i < |segs| && (out, drop) == ExpandSegment(segs[i], value)
    ensures kept + ExpandSegments(segs[i..], value) ==
      (if drop then kept else kept + [out]) + ExpandSegments(segs[i + 1..], value)
  {
    assert segs[i..][1..] == segs[i + 1..];
  }

  // ---------- the template {{T1}}-{{T2}}-...-{{Tn}} ----------

  function Placeholders(names: seq<string>): seq<string> {
    if names == [] then [] else [Placeholder(names[0])] + Placeholders(names[1..])
  }

  function Hyphenated(names: seq<string>): string {
    Join(Placeholders(names), "-")
  }

  function HyphenLinks(names: seq<string>): seq<Link> {
    if names == [] then [] else
      [Link(names[0], if |names| == 1 then "" else "-")] + HyphenLinks(names[1..])
  }

  function ValuesOf(names: seq<string>, value: Values): seq<string> {
    if names == [] then [] else [value(names[0])] + ValuesOf(names[1..], value)
  }

  ghost predicate AllValid(names: seq<string>) {
    forall i :: 0 <= i < |names| ==> ValidName(names[i])
  }

  lemma HyphenatedFront(names: seq<string>)
    requires |names| > 1
    ensures Hyphenated(names) == Placeholder(names[0]) + ("-" + Hyphenated(names[1..]))
  {
    assert Placeholders(names)[1..] == Placeholders(names[1..]);
    Reassociate(Placeholder(names[0]), "-", Hyphenated(names[1..]));
  }

  lemma {:induction false} HyphenatedIsRendered(names: seq<string>)
    requires names != []
    ensures RenderLinks(HyphenLinks(names)) == Hyphenated(names)
    ensures |HyphenLinks(names)| == |names| && LinkNames(HyphenLinks(names)) == names
  {
    var links := HyphenLinks(names);
    assert links[1..] == HyphenLinks(names[1..]) && names == [names[0]] + names[1..];
    if |names| > 1 {
      HyphenatedIsRendered(names[1..]);
      HyphenatedFront(names);
    } else {
      assert links[1..] == [] && RenderLinks([]) == "";
      assert Placeholder(names[0]) + ("" + "") == Placeholder(names[0]);
      assert Placeholders(names) == [Placeholder(names[0])];
    }
  }

  lemma {:induction false} HyphenLinksAreProper(names: seq<string>)
    requires AllValid(names)
    ensures ProperLinks(HyphenLinks(names))
  {
    if names != [] {
      assert Plain("") && Plain("-");
      HyphenLinksAreProper(names[1..]);
    }
  }

  lemma HyphenatedParse(names: seq<string>)
    requires names != [] && AllValid(names)
    ensures Parse(Hyphenated(names)) == Chain("", HyphenLinks(names))
  {
    HyphenatedIsRendered(names);
    HyphenLinksAreProper(names);
    assert Plain("");
    ParseRender(Chain("", HyphenLinks(names)));
    assert "" + Hyphenated(names) == Hyphenated(names);
  }

  /** The brace translation the expansion starts with leaves such a template alone. */
  lemma {:induction false} HyphenatedUntranslated(ui: map<string, string>, names: seq<string>)
    requires Clean(ui) && names != [] && AllValid(names)
    ensures Translate(ui, Hyphenated(names), false) == Hyphenated(names)
  {
    if |names| == 1 {
      DoubleBracesThrough(ui, names[0], "", false);
      assert Placeholder(names[0]) + "" == Placeholder(names[0]);
      assert Placeholders(names) == [Placeholder(names[0])];
    } else {
      var rest := Hyphenated(names[1..]);
      HyphenatedUntranslated(ui, names[1..]);
      HyphenatedFront(names);
      DoubleBracesThrough(ui, names[0], "-" + rest, false);
      Through(ui, "-", rest, false);
    }
  }

  lemma {:induction false} HyphenatedHasNoBar(names: seq<string>)
    requires names != [] && AllValid(names)
    ensures '|' !in Hyphenated(names)
  {
    assert '|' !in Placeholder(names[0]);
    if |names| == 1 {
      assert Placeholders(names) == [Placeholder(names[0])];
    } else {
      HyphenatedHasNoBar(names[1..]);
      HyphenatedFront(names);
    }
  }

  lemma HyphenatedBegins(names: seq<string>)
    requires names != []
    ensures HasDoubleBrace(Hyphenated(names))
  {
    var s := Hyphenated(names);
    if |names| == 1 {
      assert Placeholders(names) == [Placeholder(names[0])];
    } else {
      HyphenatedFront(names);
    }
    assert s[0] == '{' && s[1] == '{';
  }

  // ---------- the values ----------

  /** The values left, each behind a hyphen once something was written. */
  function Tail(names: seq<string>, value: Values, wrote: bool): string {
    if names == [] then "" else
      var v := value(names[0]);
      (if v == "" then "" else (if wrote then "-" else "") + v) + Tail(names[1..], value, wrote || v != "")
  }

  lemma JoinMore(v: string, rest: seq<string>)
    ensures Join([v] + rest, "-") == v + ((if rest != [] then "-" else "") + Join(rest, "-"))
  {
    assert ([v] + rest)[1..] == rest;
    if rest == [] {
      assert [v] + rest == [v];
    } else {
      Reassociate(v, "-", Join(rest, "-"));
    }
  }

  lemma {:induction false} TailIsFallback(names: seq<string>, value: Values, wrote: bool)
    ensures Tail(names, value, wrote) ==
      (if wrote && Filled(ValuesOf(names, value)) != [] then "-" else "") + Join(Filled(ValuesOf(names, value)), "-")
  {
    if names != [] {
      var v, rest := value(names[0]), Filled(ValuesOf(names[1..], value));
      TailIsFallback(names[1..], value, wrote || v != "");
      assert ValuesOf(names, value)[1..] == ValuesOf(names[1..], value);
      if v == "" {
        assert Filled(ValuesOf(names, value)) == rest;
        assert "" + Tail(names[1..], value, wrote) == Tail(names[1..], value, wrote);
      } else {
        assert Filled(ValuesOf(names, value)) == [v] + rest;
        JoinMore(v, rest);
        Reassociate(if wrote then "-" else "", v, Tail(names[1..], value, true));
      }
    }
  }

  lemma LoneHyphen()
    ensures TrimSpace("-") == "-"
  {}

  /** A hyphen before the next value, when something was written and something follows. */
  lemma HyphenBefore(name: string, names: seq<string>, value: Values, wrote: bool, more: string)
    requires names != []
    requires more == value(names[0]) + Tail(names[1..], value, wrote || value(names[0]) != "")
    ensures Between(Link(name, "-"), names[0], value, wrote) + more == Tail(names, value, wrote)
  {
    LoneHyphen();
    var v, rest := value(names[0]), Tail(names[1..], value, wrote || value(names[0]) != "");
    if wrote && v != "" {
      Reassociate("-", v, rest);
    }
  }

  lemma {:induction false} ExpandIsTail(names: seq<string>, value: Values, wrote: bool)
    requires names != []
    ensures ExpandLinks(HyphenLinks(names), value, wrote) ==
      value(names[0]) + Tail(names[1..], value, wrote || value(names[0]) != "")
  {
    var links, v := HyphenLinks(names), value(names[0]);
    var w := wrote || v != "";
    assert links[1..] == HyphenLinks(names[1..]);
    if |names| > 1 {
      var more := ExpandLinks(HyphenLinks(names[1..]), value, w);
      ExpandIsTail(names[1..], value, w);
      HyphenBefore(names[0], names[1..], value, w, more);
      assert links[0] == Link(names[0], "-") && links[1].name == names[1];
      Reassociate(v, Between(links[0], names[1], value, w), more);
    } else {
      assert links == [Link(names[0], "")] && names[1..] == [];
      assert v + "" == v;
    }
  }

  lemma SplitNone(s: string)
    requires '|' !in s
    ensures Split(s, '|') == [s]
  {
    assert Join([s], "|") == s;
    SplitJoin([s], '|');
  }

  /** For any tokens the template {{T1}}-{{T2}}-...-{{Tn}} expands to the plain remark of the values, whatever text
      they hold, unless no value is worth showing: then it gives nothing. */
  lemma HyphenatedExpands(ui: map<string, string>, names: seq<string>, value: Values)
    requires Clean(ui) && names != [] && AllValid(names)
    ensures ExpandRemarkVars(ui, Hyphenated(names), value) ==
      if Informative(value, names) then Join(Filled(ValuesOf(names, value)), "-") else ""
  {
    var s := Hyphenated(names);
    HyphenatedUntranslated(ui, names);
    HyphenatedBegins(names);
    HyphenatedHasNoBar(names);
    SplitNone(s);
    HyphenatedParse(names);
    HyphenatedIsRendered(names);
    HyphenatedSegment(names, value);
    var (out, drop) := ExpandSegment(s, value);
    assert ExpandSegments([s], value) == if drop then [] else [out];
  }

  lemma TailFromFirst(names: seq<string>, value: Values)
    requires names != []
    ensures Tail(names, value, false) == value(names[0]) + Tail(names[1..], value, value(names[0]) != "")
  {
    assert "" + value(names[0]) == value(names[0]);
  }

  lemma HyphenatedSegment(names: seq<string>, value: Values)
    requires names != [] && AllValid(names)
    ensures ExpandSegment(Hyphenated(names), value) ==
      (Join(Filled(ValuesOf(names, value)), "-"), !Informative(value, names))
  {
    HyphenatedParse(names);
    HyphenatedIsRendered(names);
    HyphenatedText(names, value);
    assert ExpandSegment(Hyphenated(names), value).0 == "" + ExpandLinks(HyphenLinks(names), value, false);
  }

  lemma HyphenatedText(names: seq<string>, value: Values)
    requires names != []
    ensures "" + ExpandLinks(HyphenLinks(names), value, false) == Join(Filled(ValuesOf(names, value)), "-")
  {
    ExpandIsTail(names, value, false);
    TailFromFirst(names, value);
    TailIsFallback(names, value, false);
  }

  lemma {:induction false} AllEmpty(names: seq<string>, value: Values)
    ensures Filled(ValuesOf(names, value)) == [] <==> forall i :: 0 <= i < |names| ==> value(names[i]) == ""
  {
    if names != [] {
      AllEmpty(names[1..], value);
      assert ValuesOf(names, value)[1..] == ValuesOf(names[1..], value);
    }
  }

  lemma {:induction false} FilledJoin(parts: seq<string>)
    ensures Join(Filled(parts), "-") == "" <==> Filled(parts) == []
  {
    if parts != [] {
      FilledJoin(parts[1..]);
      if parts[0] == "" { assert [] + Filled(parts[1..]) == Filled(parts[1..]); }
    }
  }

  /** When giving nothing for want of a value worth showing is what the plain remark does too. */
  lemma NothingWorthShowing(names: seq<string>, value: Values, expanded: string)
    requires expanded == if Informative(value, names) then Join(Filled(ValuesOf(names, value)), "-") else ""
    ensures expanded == Join(Filled(ValuesOf(names, value)), "-") <==>
      (Informative(value, names) || forall i :: 0 <= i < |names| ==> value(names[i]) == "")
  {
    AllEmpty(names, value);
    FilledJoin(ValuesOf(names, value));
  }

  /** The template and the plain remark agree exactly when some value is worth showing or every value is empty. */
  lemma TemplateAgreesExactly(ui: map<string, string>, names: seq<string>, value: Values)
    requires Clean(ui) && names != [] && AllValid(names)
    ensures ExpandRemarkVars(ui, Hyphenated(names), value) == Join(Filled(ValuesOf(names, value)), "-") <==>
      (Informative(value, names) || forall i :: 0 <= i < |names| ==> value(names[i]) == "")
  {
    var expanded := ExpandRemarkVars(ui, Hyphenated(names), value);
    HyphenatedExpands(ui, names, value);
    NothingWorthShowing(names, value, expanded);
  }

  lemma FilledOne(name: string, value: Values)
    requires value(name) != ""
    ensures Join(Filled(ValuesOf([name], value)), "-") == value(name)
  {
    assert ValuesOf([name], value) == [value(name)];
    assert Filled([value(name)]) == [value(name)];
  }

  /** One that fails the condition: for a client without expiry the days left alone expand to nothing, where the plain
      remark shows the unlimited mark. */
  lemma UnlimitedAloneIsLost(ui: map<string, string>, value: Values)
    requires Clean(ui) && value("DAYS_LEFT") == UNLIMITED_MARK
    ensures ExpandRemarkVars(ui, "{{DAYS_LEFT}}", value) == ""
    ensures Join(Filled(ValuesOf(["DAYS_LEFT"], value)), "-") == UNLIMITED_MARK
  {
    DaysLeft();
    FilledOne("DAYS_LEFT", value);
    HyphenatedExpands(ui, ["DAYS_LEFT"], value);
  }

  lemma DaysLeft()
    ensures Hyphenated(["DAYS_LEFT"]) == "{{DAYS_LEFT}}" && ValidName("DAYS_LEFT")
  {
    assert Placeholders(["DAYS_LEFT"]) == [Placeholder("DAYS_LEFT")];
    assert Placeholder("DAYS_LEFT") == "{{DAYS_LEFT}}";
  }

  /** So for tokens outside the unlimited-drop set they always agree. */
  lemma TemplateAgreesWithFallback(ui: map<string, string>, names: seq<string>, value: Values)
    requires Clean(ui) && names != [] && AllValid(names)
    requires forall i :: 0 <= i < |names| ==> names[i] !in UNLIMITED_DROP_TOKENS
    ensures ExpandRemarkVars(ui, Hyphenated(names), value) == Join(Filled(ValuesOf(names, value)), "-")
  {
    TemplateAgreesExactly(ui, names, value);
    WorthOrEmpty(names, value);
  }

  lemma WorthOrEmpty(names: seq<string>, value: Values)
    requires forall i :: 0 <= i < |names| ==> names[i] !in UNLIMITED_DROP_TOKENS
    ensures Informative(value, names) || forall i :: 0 <= i < |names| ==> value(names[i]) == ""
  {
    if !Informative(value, names) {
      forall i | 0 <= i < |names| ensures value(names[i]) == "" { assert !Worth(value, names[i]); }
    }
  }
}
