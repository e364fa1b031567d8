/** strings.TrimSpace and strings.Split. */
module Trimming {
  import opened Joining

  predicate Space(c: char) {
    c in {'\t', '\n', '\U{0B}', '\U{0C}', '\r', ' ', '\U{85}', '\U{A0}', '\U{1680}', '\U{2028}', '\U{2029}',
          '\U{202F}', '\U{205F}', '\U{3000}'} || '\U{2000}' <= c <= '\U{200A}'
  }

  /** These are the characters Unicode gives the property White_Space. */
  lemma WhiteSpace(c: char)
    ensures Space(c) <==>
      9 <= c as int <= 13 || 0x2000 <= c as int <= 0x200A
      || c as int in {0x20, 0x85, 0xA0, 0x1680, 0x2028, 0x2029, 0x202F, 0x205F, 0x3000}
  {}

  function TrimLeft(s: string): string {
    if s != "" && Space(s[0]) then TrimLeft(s[1..]) else s
  }

  function TrimRight(s: string): string {
    if s != "" && Space(s[|s| - 1]) then TrimRight(s[..|s| - 1]) else s
  }

  function TrimSpace(s: string): string {
    TrimRight(TrimLeft(s))
  }

  lemma {:induction false} TrimLeftConcat(a: string, b: string)
    requires b != "" && !Space(b[0])
    ensures TrimLeft(a + b) == TrimLeft(a) + b
  {
    if a == "" {
      assert a + b == b;
    } else if Space(a[0]) {
      assert (a + b)[1..] == a[1..] + b;
      TrimLeftConcat(a[1..], b);
    }
  }

  lemma {:induction false} TrimRightConcat(a: string, b: string)
    requires a != "" && !Space(a[|a| - 1])
    ensures TrimRight(a + b) == a + TrimRight(b)
  {
    if b == "" {
      assert a + b == a;
    } else if Space(b[|b| - 1]) {
      assert (a + b)[..|a + b| - 1] == a + b[..|b| - 1];
      TrimRightConcat(a, b[..|b| - 1]);
    }
  }

  lemma {:induction false} TrimLeftTwice(s: string)
    ensures TrimLeft(TrimLeft(s)) == TrimLeft(s)
  {
    if s != "" && Space(s[0]) { TrimLeftTwice(s[1..]); }
  }

  lemma {:induction false} TrimRightTwice(s: string)
    ensures TrimRight(TrimRight(s)) == TrimRight(s)
  {
    if s != "" && Space(s[|s| - 1]) { TrimRightTwice(s[..|s| - 1]); }
  }

  lemma {:induction false} TrimRightFront(s: string)
    requires s == "" || !Space(s[0])
    ensures TrimRight(s) == "" <==> s == ""
    ensures TrimRight(s) != "" ==> TrimRight(s)[0] == s[0]
  {
    if s != "" && Space(s[|s| - 1]) { TrimRightFront(s[..|s| - 1]); }
  }

  lemma {:induction false} TrimLeftFront(s: string)
    ensures TrimLeft(s) == "" || !Space(TrimLeft(s)[0])
  {
    if s != "" && Space(s[0]) { TrimLeftFront(s[1..]); }
  }

  lemma TrimTwice(s: string)
    ensures TrimSpace(TrimSpace(s)) == TrimSpace(s)
  {
    TrimLeftFront(s);
    TrimRightFront(TrimLeft(s));
    TrimRightTwice(TrimLeft(s));
  }

  lemma {:induction false} TrimLeftMembers(s: string, c: char)
    requires c in TrimLeft(s)
    ensures c in s
  {
    if s != "" && Space(s[0]) { TrimLeftMembers(s[1..], c); }
  }

  lemma {:induction false} TrimRightMembers(s: string, c: char)
    requires c in TrimRight(s)
    ensures c in s
  {
    if s != "" && Space(s[|s| - 1]) { TrimRightMembers(s[..|s| - 1], c); }
  }

  // ---------- splitting ----------

  function Split(s: string, sep: char): (parts: seq<string>)
    ensures parts != []
  {
    if s == "" then [""]
    else if s[0] == sep then [""] + Split(s[1..], sep)
    else
      var rest := Split(s[1..], sep);
      [[s[0]] + rest[0]] + rest[1..]
  }

  lemma JoinFront(first: string, rest: seq<string>, sep: string)
    requires rest != []
    ensures Join([first] + rest, sep) == first + sep + Join(rest, sep)
  {
    assert ([first] + rest)[1..] == rest;
  }

  /** A character in front of the first part. */
  lemma JoinGrow(c: char, parts: seq<string>, sep: string)
    requires parts != []
    ensures Join([[c] + parts[0]] + parts[1..], sep) == [c] + Join(parts, sep)
  {
    var grown := [[c] + parts[0]] + parts[1..];
    assert grown[1..] == parts[1..];
    if |parts| > 1 {
      assert [c] + (parts[0] + sep + Join(parts[1..], sep)) == [c] + parts[0] + sep + Join(parts[1..], sep);
    }
  }

  /** Joining the parts of a text gives it back. */
  lemma {:induction false} JoinSplit(s: string, sep: char)
    ensures Join(Split(s, sep), [sep]) == s && Free(Split(s, sep), sep)
  {
    if s != "" {
      JoinSplit(s[1..], sep);
      JoinFront("", Split(s[1..], sep), [sep]);
      JoinGrow(s[0], Split(s[1..], sep), [sep]);
      assert s == [s[0]] + s[1..];
    }
  }

  lemma {:induction false} SplitJoin(parts: seq<string>, sep: char)
    requires parts != [] && Free(parts, sep)
    ensures Split(Join(parts, [sep]), sep) == parts
  {
    JoinSplit(Join(parts, [sep]), sep);
    JoinInjective(Split(Join(parts, [sep]), sep), parts, sep);
  }
}
