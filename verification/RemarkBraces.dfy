/** Translating the single-brace tokens of the user interface into {{TOKEN}} placeholders. */
module RemarkBraces {
  import opened Joining
  import opened Options
  import opened RemarkText

  /** The names the user interface offers and the internal names they stand for. */
  const UI_TOKENS: map<string, string> := map[
    "EMAIL" := "EMAIL",
    "DATA_USAGE" := "TRAFFIC_USED",
    "DATA_LEFT" := "TRAFFIC_LEFT",
    "DATA_LIMIT" := "TRAFFIC_TOTAL",
    "DAYS_LEFT" := "DAYS_LEFT",
    "EXPIRE_DATE" := "EXPIRE_DATE",
    "JALALI_EXPIRE_DATE" := "JALALI_EXPIRE_DATE",
    "TIME_LEFT" := "TIME_LEFT",
    "STATUS_EMOJI" := "STATUS_EMOJI",
    "USAGE_PERCENTAGE" := "USAGE_PERCENTAGE",
    "PROTOCOL" := "PROTOCOL",
    "TRANSPORT" := "TRANSPORT",
    "SECURITY" := "SECURITY"]

  /** A table of names that hold no braces. */
  ghost predicate Clean(ui: map<string, string>) {
    forall k :: k in ui ==> ValidName(k) && ValidName(ui[k])
  }

  /** The position of the first closing brace, or the length of the text. */
  function Closing(s: string): (n: nat)
    ensures n <= |s| && (n < |s| ==> s[n] == '}') && '}' !in s[..n]
  {
    if s == "" || s[0] == '}' then 0 else 1 + Closing(s[1..])
  }

  /** The internal name for a token that starts right at the beginning of a text, behind its brace. */
  function Known(ui: map<string, string>, s: string): Option<string> {
    var n := Closing(s);
    if n < |s| && s[..n] in ui then Some(ui[s[..n]]) else None
  }

  /** The translation of a text; `braced` tells whether the character before it is an opening brace. */
  function Translate(ui: map<string, string>, s: string, braced: bool): string
    decreases |s|
  {
    if s == "" then ""
    else if s[0] == '{' && !braced && Known(ui, s[1..]).Some? then
      Placeholder(Known(ui, s[1..]).value) + Translate(ui, s[Closing(s[1..]) + 2..], false)
    else [s[0]] + Translate(ui, s[1..], s[0] == '{')
  }

  /** The translation of a template from a position on. */
  ghost function Todo(ui: map<string, string>, template: string, i: nat): string
    requires i <= |template|
  {
    Translate(ui, template[i..], i > 0 && template[i - 1] == '{')
  }

  /** A single opening brace stands at a position. */
  predicate Opens(template: string, i: nat)
    requires i < |template|
  {
    template[i] == '{' && (i == 0 || template[i - 1] != '{')
  }

  lemma TodoPlain(ui: map<string, string>, template: string, i: nat)
    requires i < |template| && !Opens(template, i)
    ensures Todo(ui, template, i) == [template[i]] + Todo(ui, template, i + 1)
  {
    assert template[i..][1..] == template[i + 1..];
  }

  lemma TodoUnknown(ui: map<string, string>, template: string, i: nat, j: nat)
    requires i < |template| && j == i + 1 + Closing(template[i + 1..]) && template[i] == '{'
    requires !(j < |template| && template[i + 1..j] in ui)
    ensures Todo(ui, template, i) == [template[i]] + Todo(ui, template, i + 1)
  {
    assert template[i..][1..] == template[i + 1..];
    assert template[i + 1..j] == template[i + 1..][..j - i - 1];
  }

  lemma TodoToken(ui: map<string, string>, template: string, i: nat, j: nat)
    requires i < |template| && Opens(template, i) && j == i + 1 + Closing(template[i + 1..])
    requires j < |template| && template[i + 1..j] in ui
    ensures Todo(ui, template, i) == Placeholder(ui[template[i + 1..j]]) + Todo(ui, template, j + 1)
  {
    assert template[i..][1..] == template[i + 1..] && template[i..][j - i + 1..] == template[j + 1..];
    assert template[i + 1..j] == template[i + 1..][..j - i - 1];
  }

  /** The inner loop: the first closing brace from a position on. */
  method FindClosing(template: string, from: nat) returns (j: nat)
    requires from <= |template|
    ensures j <= |template| && j == from + Closing(template[from..])
    ensures j < |template| ==> template[j] == '}'
  {
    j := from;
    while j < |template| && template[j] != '}'
      invariant from <= j <= |template| && '}' !in template[from..j]
    {
      j := j + 1;
    }
    assert template[from..][..j - from] == template[from..j];
    ClosingIs(template[from..], j - from);
  }

  /** One character of the template is copied. */
  lemma Copied(ui: map<string, string>, template: string, i: nat, result: string, goal: string)
    requires i < |template| && goal == result + Todo(ui, template, i)
    requires Todo(ui, template, i) == [template[i]] + Todo(ui, template, i + 1)
    ensures goal == (result + [template[i]]) + Todo(ui, template, i + 1)
  {
    Reassociate(result, [template[i]], Todo(ui, template, i + 1));
  }

  /** One token of the template is replaced. */
  lemma Replaced(ui: map<string, string>, template: string, i: nat, j: nat, result: string, goal: string)
    requires i < |template| && goal == result + Todo(ui, template, i)
    requires Opens(template, i) && j == i + 1 + Closing(template[i + 1..])
    requires j < |template| && template[i + 1..j] in ui
    ensures goal == (result + Placeholder(ui[template[i + 1..j]])) + Todo(ui, template, j + 1)
  {
    TodoToken(ui, template, i, j);
    Reassociate(result, Placeholder(ui[template[i + 1..j]]), Todo(ui, template, j + 1));
  }

  lemma TodoWhole(ui: map<string, string>, template: string)
    ensures Todo(ui, template, 0) == Translate(ui, template, false)
    ensures Todo(ui, template, |template|) == ""
  {
    assert template[0..] == template;
  }

  /** A character that opens no token is copied. */
  lemma CopiedPlain(ui: map<string, string>, template: string, i: nat, result: string, goal: string)
    requires i < |template| && !Opens(template, i) && goal == result + Todo(ui, template, i)
    ensures goal == (result + [template[i]]) + Todo(ui, template, i + 1)
  {
    TodoPlain(ui, template, i);
    Copied(ui, template, i, result, goal);
  }

  /** So is a brace before something the table does not know. */
  lemma CopiedUnknown(ui: map<string, string>, template: string, i: nat, j: nat, result: string, goal: string)
    requires i < |template| && goal == result + Todo(ui, template, i)
    requires j == i + 1 + Closing(template[i + 1..]) && template[i] == '{'
    requires !(j < |template| && template[i + 1..j] in ui)
    ensures goal == (result + [template[i]]) + Todo(ui, template, i + 1)
  {
    TodoUnknown(ui, template, i, j);
    Copied(ui, template, i, result, goal);
  }

  method TranslateUISingleBrackets(ui: map<string, string>, template: string) returns (result: string)
    ensures result == Translate(ui, template, false)
  {
    result := "";
    var i := 0;
    ghost var goal := Todo(ui, template, 0);
    TodoWhole(ui, template);
    while i < |template|
      invariant 0 <= i <= |template| && goal == result + Todo(ui, template, i)
    {
      if template[i] == '{' && (i == 0 || template[i - 1] != '{') {
        var j := FindClosing(template, i + 1);
        if j < |template| && template[j] == '}' {
          var token := template[i + 1..j];
          if token in ui {
            Replaced(ui, template, i, j, result, goal);
            result := result + Placeholder(ui[token]);
            i := j + 1;
            continue;
          }
        }
        CopiedUnknown(ui, template, i, j, result, goal);
      } else {
        CopiedPlain(ui, template, i, result, goal);
      }
      result := result + [template[i]];
      i := i + 1;
    }
  }

  lemma {:induction false} ClosingIs(s: string, n: nat)
    requires n <= |s| && '}' !in s[..n] && (n < |s| ==> s[n] == '}')
    ensures Closing(s) == n
  {
    if n > 0 {
      assert s[0] == s[..n][0] && s[1..][..n - 1] == s[..n][1..];
      ClosingIs(s[1..], n - 1);
    }
  }

  // ---------- {{TOKEN}} is left alone ----------

  /** A token name cannot be cut out of a text that opens a brace before it closes one. */
  lemma OpenIsUnknown(ui: map<string, string>, s: string, i: nat)
    requires Clean(ui) && i < |s| && s[i] == '{' && i <= Closing(s)
    ensures Known(ui, s) == None
  {
    var token := s[..Closing(s)];
    assert i < Closing(s) && token[i] == '{';
    assert !ValidName(token);
  }

  /** Text without opening braces goes through unchanged. */
  lemma {:induction false} Through(ui: map<string, string>, s: string, rest: string, braced: bool)
    requires '{' !in s && s != ""
    ensures Translate(ui, s + rest, braced) == s + Translate(ui, rest, false)
  {
    assert (s + rest)[0] == s[0] && (s + rest)[1..] == s[1..] + rest;
    if |s| > 1 {
      Through(ui, s[1..], rest, false);
    } else {
      assert s[1..] + rest == rest;
    }
  }

  lemma TranslateChar(ui: map<string, string>, s: string, braced: bool)
    requires s != "" && !(s[0] == '{' && !braced && Known(ui, s[1..]).Some?)
    ensures Translate(ui, s, braced) == [s[0]] + Translate(ui, s[1..], s[0] == '{')
  {}

  lemma TwoBraces(ui: map<string, string>, tail: string, braced: bool)
    requires Clean(ui)
    ensures Translate(ui, "{{" + tail, braced) == "{{" + Translate(ui, tail, true)
  {
    var s, t := "{{" + tail, "{" + tail;
    assert s[1..] == t && t[1..] == tail;
    OpenIsUnknown(ui, t, 0);
    TranslateChar(ui, s, braced);
    TranslateChar(ui, t, true);
    Reassociate("{", "{", Translate(ui, tail, true));
    assert "{" + "{" == "{{";
  }

  lemma PlaceholderApart(name: string, rest: string)
    ensures Placeholder(name) + rest == "{{" + ((name + "}}") + rest)
  {}

  lemma DoubleBracesThrough(ui: map<string, string>, name: string, rest: string, braced: bool)
    requires Clean(ui) && ValidName(name)
    ensures Translate(ui, Placeholder(name) + rest, braced) == Placeholder(name) + Translate(ui, rest, false)
  {
    PlaceholderApart(name, rest);
    PlaceholderApart(name, Translate(ui, rest, false));
    TwoBraces(ui, (name + "}}") + rest, braced);
    Through(ui, name + "}}", rest, true);
  }

  lemma {:induction false} ClosingConcat(a: string, b: string)
    ensures Closing(a) < |a| ==> Closing(a + b) == Closing(a)
    ensures Closing(a) == |a| ==> Closing(a + b) == |a| + Closing(b)
  {
    if a == "" {
      assert a + b == b;
    } else if a[0] != '}' {
      assert (a + b)[1..] == a[1..] + b;
      ClosingConcat(a[1..], b);
    }
  }

  /** Text that opens a brace decides nothing about the tokens before it. */
  lemma KnownInFront(ui: map<string, string>, a: string, b: string)
    requires Clean(ui) && b != "" && b[0] == '{'
    ensures Known(ui, a + b) == Known(ui, a)
    ensures Known(ui, a).Some? ==> Closing(a + b) == Closing(a) < |a|
  {
    ClosingConcat(a, b);
    if Closing(a) < |a| {
      assert (a + b)[..Closing(a)] == a[..Closing(a)];
    } else {
      OpenIsUnknown(ui, a + b, |a|);
    }
  }

  lemma TranslateToken(ui: map<string, string>, s: string)
    requires s != "" && s[0] == '{' && Known(ui, s[1..]).Some?
    ensures Translate(ui, s, false) ==
      Placeholder(Known(ui, s[1..]).value) + Translate(ui, s[Closing(s[1..]) + 2..], false)
  {}

  lemma CharInFront(ui: map<string, string>, a: string, b: string, out: string, braced: bool)
    requires Clean(ui) && b != "" && b[0] == '{' && a != ""
    requires !(a[0] == '{' && !braced && Known(ui, a[1..]).Some?)
    requires Translate(ui, a[1..] + b, a[0] == '{') == Translate(ui, a[1..], a[0] == '{') + out
    ensures Translate(ui, a + b, braced) == Translate(ui, a, braced) + out
  {
    assert (a + b)[1..] == a[1..] + b && (a + b)[0] == a[0];
    KnownInFront(ui, a[1..], b);
    TranslateChar(ui, a, braced);
    TranslateChar(ui, a + b, braced);
    Reassociate([a[0]], Translate(ui, a[1..], a[0] == '{'), out);
  }

  lemma TokenInFront(ui: map<string, string>, a: string, b: string, out: string)
    requires Clean(ui) && b != "" && b[0] == '{' && a != ""
    requires a[0] == '{' && Known(ui, a[1..]).Some?
    requires var rest := a[Closing(a[1..]) + 2..]; Translate(ui, rest + b, false) == Translate(ui, rest, false) + out
    ensures Translate(ui, a + b, false) == Translate(ui, a, false) + out
  {
    var n := Closing(a[1..]) + 2;
    assert (a + b)[1..] == a[1..] + b && (a + b)[0] == a[0] && (a + b)[n..] == a[n..] + b;
    KnownInFront(ui, a[1..], b);
    TranslateToken(ui, a);
    TranslateToken(ui, a + b);
    Reassociate(Placeholder(Known(ui, a[1..]).value), Translate(ui, a[n..], false), out);
  }

  /** Whether an opening brace stands right before what follows a text. */
  predicate Braced(s: string, before: bool) {
    if s == "" then before else s[|s| - 1] == '{'
  }

  lemma BracedBehind(a: string, n: nat, braced: bool)
    requires 0 < n <= |a|
    ensures Braced(a, braced) == Braced(a[n..], a[n - 1] == '{')
  {}

  lemma BracedAfterToken(a: string, braced: bool)
    requires a != "" && Closing(a[1..]) + 2 <= |a|
    ensures Braced(a, braced) == Braced(a[Closing(a[1..]) + 2..], false)
  {
    assert a[Closing(a[1..]) + 1] == a[1..][Closing(a[1..])] == '}';
    BracedBehind(a, Closing(a[1..]) + 2, braced);
  }

  predicate TokenFirst(ui: map<string, string>, a: string, braced: bool) {
    a != "" && a[0] == '{' && !braced && Known(ui, a[1..]).Some?
  }

  /** How much of a text the translation takes first: a token, or else one character. */
  function Taken(ui: map<string, string>, a: string, braced: bool): (n: nat)
    requires a != ""
    ensures 0 < n <= |a|
  {
    if TokenFirst(ui, a, braced) then Closing(a[1..]) + 2 else 1
  }

  /** Whether what follows that has an opening brace before it. */
  predicate BracedNext(ui: map<string, string>, a: string, braced: bool)
    requires a != ""
  {
    !TokenFirst(ui, a, braced) && a[0] == '{'
  }

  lemma BracedStays(ui: map<string, string>, a: string, braced: bool)
    requires a != ""
    ensures Braced(a, braced) == Braced(a[Taken(ui, a, braced)..], BracedNext(ui, a, braced))
  {
    if TokenFirst(ui, a, braced) { BracedAfterToken(a, braced); } else { BracedBehind(a, 1, braced); }
  }

  lemma TakenInFront(ui: map<string, string>, a: string, b: string, out: string, braced: bool)
    requires Clean(ui) && b != "" && b[0] == '{' && a != ""
    requires var rest, next := a[Taken(ui, a, braced)..], BracedNext(ui, a, braced);
      Translate(ui, rest + b, next) == Translate(ui, rest, next) + out
    ensures Translate(ui, a + b, braced) == Translate(ui, a, braced) + out
  {
    if TokenFirst(ui, a, braced) { TokenInFront(ui, a, b, out); } else { CharInFront(ui, a, b, out, braced); }
  }

  /** Text that opens a brace is translated apart from what is before it. */
  lemma {:induction false} TranslateInFront(ui: map<string, string>, a: string, b: string, braced: bool)
    requires Clean(ui) && b != "" && b[0] == '{'
    ensures Translate(ui, a + b, braced) == Translate(ui, a, braced) + Translate(ui, b, Braced(a, braced))
    decreases |a|
  {
    if a == "" {
      assert a + b == b;
    } else {
      var out := Translate(ui, b, Braced(a, braced));
      BracedStays(ui, a, braced);
      TranslateInFront(ui, a[Taken(ui, a, braced)..], b, BracedNext(ui, a, braced));
      TakenInFront(ui, a, b, out, braced);
    }
  }

  /** A placeholder goes through untouched wherever it stands, and what is around it is translated on its own. */
  lemma PlaceholdersStay(ui: map<string, string>, a: string, name: string, b: string)
    requires Clean(ui) && ValidName(name)
    ensures Translate(ui, a + (Placeholder(name) + b), false) ==
      Translate(ui, a, false) + (Placeholder(name) + Translate(ui, b, false))
  {
    DoubleBracesThrough(ui, name, b, Braced(a, false));
    TranslateInFront(ui, a, Placeholder(name) + b, false);
  }

  // ---------- {NAME} is translated ----------

  function Single(name: string): string {
    "{" + (name + "}")
  }

  lemma NameKnown(ui: map<string, string>, name: string, b: string)
    requires Clean(ui) && name in ui
    ensures Known(ui, name + "}" + b) == Some(ui[name]) && Closing(name + "}" + b) == |name|
  {
    assert (name + "}" + b)[..|name|] == name;
    ClosingIs(name + "}" + b, |name|);
  }

  lemma NameInFront(ui: map<string, string>, name: string, b: string)
    requires Clean(ui) && name in ui
    ensures Translate(ui, Single(name) + b, false) == Placeholder(ui[name]) + Translate(ui, b, false)
  {
    var s := Single(name) + b;
    NameKnown(ui, name, b);
    assert s[1..] == name + "}" + b && s[|name| + 2..] == b;
    TranslateToken(ui, s);
  }

  /** A name of the table in single braces becomes the placeholder it stands for, wherever it is, and what is around it
      is translated on its own. */
  lemma NamesTranslate(ui: map<string, string>, a: string, name: string, b: string)
    requires Clean(ui) && name in ui && !Braced(a, false)
    ensures Translate(ui, a + (Single(name) + b), false) ==
      Translate(ui, a, false) + (Placeholder(ui[name]) + Translate(ui, b, false))
  {
    NameInFront(ui, name, b);
    TranslateInFront(ui, a, Single(name) + b, false);
  }

  /** No name of the table stands in single braces anywhere in the text. */
  ghost predicate Nameless(ui: map<string, string>, s: string, braced: bool) {
    forall i, name :: 0 <= i < |s| && name in ui && Single(name) <= s[i..] ==> Braced(s[..i], braced)
  }

  lemma NamelessBehind(ui: map<string, string>, s: string, braced: bool)
    requires Nameless(ui, s, braced) && s != ""
    ensures Nameless(ui, s[1..], s[0] == '{')
  {
    forall i, name | 0 <= i < |s| - 1 && name in ui && Single(name) <= s[1..][i..]
      ensures Braced(s[1..][..i], s[0] == '{')
    {
      assert s[1..][i..] == s[i + 1..] && Braced(s[..i + 1], braced);
    }
  }

  lemma NamelessOpens(ui: map<string, string>, s: string)
    requires s != "" && s[0] == '{' && Known(ui, s[1..]).Some?
    ensures !Nameless(ui, s, false)
  {
    var n := Closing(s[1..]);
    var name := s[1..][..n];
    assert s[0..] == s && Single(name) == s[..n + 2];
    assert name in ui && Single(name) <= s[0..] && !Braced(s[..0], false);
  }

  /** And a text without any stays as it is. */
  lemma {:induction false} OthersStay(ui: map<string, string>, s: string, braced: bool)
    requires Nameless(ui, s, braced)
    ensures Translate(ui, s, braced) == s
  {
    if s != "" {
      NamelessBehind(ui, s, braced);
      OthersStay(ui, s[1..], s[0] == '{');
      if s[0] == '{' && !braced && Known(ui, s[1..]).Some? { NamelessOpens(ui, s); }
      TranslateChar(ui, s, braced);
    }
  }

  // ---------- tokens after the translation ----------

  /** Up to the first closing brace two texts are the same, or the first has an opening brace there. */
  ghost predicate SameOrBraced(t: string, s: string) {
    || (Closing(t) == Closing(s) && t[..Closing(t)] == s[..Closing(s)] && (Closing(t) < |t| <==> Closing(s) < |s|))
    || exists i :: 0 <= i < Closing(t) && t[i] == '{'
  }

  /** What can be read as a token after the translation could be read as one before. */
  lemma KnownBefore(ui: map<string, string>, t: string, s: string)
    requires Clean(ui) && SameOrBraced(t, s) && Known(ui, t).Some?
    ensures Known(ui, s) == Known(ui, t)
  {
    if i :| 0 <= i < Closing(t) && t[i] == '{' {
      OpenIsUnknown(ui, t, i);
    }
  }

  lemma {:induction false} SameToken(ui: map<string, string>, s: string, braced: bool)
    ensures SameOrBraced(Translate(ui, s, braced), s)
    decreases |s|
  {
    if s == "" || s[0] == '}' {
    } else if s[0] == '{' {
      assert Translate(ui, s, braced)[0] == '{';
    } else {
      SameToken(ui, s[1..], false);
      SameAfterFront(s[0], Translate(ui, s[1..], false), s[1..]);
      assert s == [s[0]] + s[1..];
    }
  }

  lemma SameAfterFront(c: char, t: string, s: string)
    requires SameOrBraced(t, s) && c != '}'
    ensures SameOrBraced([c] + t, [c] + s)
  {
    assert ([c] + t)[1..] == t && ([c] + s)[1..] == s;
    assert Closing([c] + t) == 1 + Closing(t) && Closing([c] + s) == 1 + Closing(s);
    if i :| 0 <= i < Closing(t) && t[i] == '{' {
      assert ([c] + t)[i + 1] == '{';
    } else {
      assert ([c] + t)[..1 + Closing(t)] == [c] + t[..Closing(t)];
      assert ([c] + s)[..1 + Closing(s)] == [c] + s[..Closing(s)];
    }
  }

  lemma NamesAreValid()
    ensures ValidName("EMAIL") && ValidName("DATA_USAGE") && ValidName("DATA_LEFT") && ValidName("DATA_LIMIT")
  {}

  lemma MoreNamesAreValid()
    ensures ValidName("TRAFFIC_USED") && ValidName("TRAFFIC_LEFT") && ValidName("TRAFFIC_TOTAL")
    ensures ValidName("PROTOCOL") && ValidName("TRANSPORT") && ValidName("SECURITY")
  {}

  lemma DateNamesAreValid()
    ensures ValidName("DAYS_LEFT") && ValidName("EXPIRE_DATE") && ValidName("JALALI_EXPIRE_DATE")
    ensures ValidName("TIME_LEFT") && ValidName("STATUS_EMOJI") && ValidName("USAGE_PERCENTAGE")
  {}

  lemma UITokensAreClean()
    ensures Clean(UI_TOKENS)
  {
    NamesAreValid();
    MoreNamesAreValid();
    DateNamesAreValid();
  }
}
