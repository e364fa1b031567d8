/** strings.Join and what separators guarantee. */
module Joining {

  function Join(parts: seq<string>, sep: string): string {
    if parts == [] then ""
    else if |parts| == 1 then parts[0]
    else parts[0] + sep + Join(parts[1..], sep)
  }

  lemma Reassociate(a: string, b: string, c: string)
    ensures a + (b + c) == (a + b) + c
  {}

  /** A text cut at the first occurrence of a character is cut in only one way. */
  lemma CutOnce(x: string, y: string, x': string, y': string, sep: char)
    requires sep !in x && sep !in x'
    requires x + [sep] + y == x' + [sep] + y'
    ensures x == x' && y == y'
  {
    var s, s' := x + [sep] + y, x' + [sep] + y';
    assert s[|x|] == sep && s'[|x'|] == sep;
    forall k | 0 <= k < |x| ensures s[k] != sep {
      assert s[k] == x[k] && x[k] in x;
    }
    forall k | 0 <= k < |x'| ensures s'[k] != sep {
      assert s'[k] == x'[k] && x'[k] in x';
    }
    assert |x| == |x'|;
    assert x == s[..|x|] && x' == s'[..|x|];
    assert y == s[|x| + 1..] && y' == s'[|x| + 1..];
  }

  ghost predicate Free(parts: seq<string>, sep: char) {
    forall i :: 0 <= i < |parts| ==> sep !in parts[i]
  }

  lemma {:induction false} JoinHasSeparator(parts: seq<string>, sep: char)
    requires |parts| > 1
    ensures sep in Join(parts, [sep])
  {
    var s := parts[0] + [sep] + Join(parts[1..], [sep]);
    assert s[|parts[0]|] == sep;
  }

  /** Joined text determines its parts when no part holds the separator. */
  lemma {:induction false} JoinInjective(a: seq<string>, b: seq<string>, sep: char)
    requires a != [] && b != [] && Free(a, sep) && Free(b, sep)
    requires Join(a, [sep]) == Join(b, [sep])
    ensures a == b
  {
    if |a| == 1 || |b| == 1 {
      if |a| > 1 { JoinHasSeparator(a, sep); }
      if |b| > 1 { JoinHasSeparator(b, sep); }
    } else {
      CutOnce(a[0], Join(a[1..], [sep]), b[0], Join(b[1..], [sep]), sep);
      JoinInjective(a[1..], b[1..], sep);
      assert a == [a[0]] + a[1..] && b == [b[0]] + b[1..];
    }
  }

  function Count(s: string, c: char): nat {
    multiset(s)[c]
  }

  lemma CountConcat(a: string, b: string, c: char)
    ensures Count(a + b, c) == Count(a, c) + Count(b, c)
  {}

  lemma CountNone(s: string, c: char)
    ensures Count(s, c) == 0 <==> c !in s
  {
    assert c in multiset(s) <==> c in s;
  }

  /** Joined text holds a separator between any two parts, and no other exactly when no part holds one. */
  lemma {:induction false} JoinCounts(parts: seq<string>, sep: char)
    requires parts != []
    ensures Count(Join(parts, [sep]), sep) >= |parts| - 1
    ensures Count(Join(parts, [sep]), sep) == |parts| - 1 <==> Free(parts, sep)
  {
    CountNone(parts[0], sep);
    if |parts| > 1 {
      JoinCounts(parts[1..], sep);
      CountConcat(parts[0] + [sep], Join(parts[1..], [sep]), sep);
      CountConcat(parts[0], [sep], sep);
      assert Free(parts, sep) <==> sep !in parts[0] && Free(parts[1..], sep) by {
        assert forall i :: 0 < i < |parts| ==> parts[i] == parts[1..][i - 1];
      }
    }
  }
}
