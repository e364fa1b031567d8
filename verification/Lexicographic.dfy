/** The order of Go strings, and sorting by it. */
module Lexicographic {

  /** Go compares strings byte by byte; on well-formed text that is the order of the code points. */
  predicate Le(a: string, b: string) {
    || a == ""
    || (b != "" && (a[0] < b[0] || (a[0] == b[0] && Le(a[1..], b[1..]))))
  }

  lemma {:induction false} LeTotal(a: string, b: string)
    ensures Le(a, b) || Le(b, a)
  {
    if a != "" && b != "" && a[0] == b[0] {
      LeTotal(a[1..], b[1..]);
    }
  }

  lemma {:induction false} LeAntisymmetric(a: string, b: string)
    requires Le(a, b) && Le(b, a)
    ensures a == b
  {
    if a != "" && b != "" {
      LeAntisymmetric(a[1..], b[1..]);
      assert a == [a[0]] + a[1..] && b == [b[0]] + b[1..];
    }
  }

  lemma {:induction false} LeTransitive(a: string, b: string, c: string)
    requires Le(a, b) && Le(b, c)
    ensures Le(a, c)
  {
    if a != "" && b != "" && c != "" && a[0] == b[0] == c[0] {
      LeTransitive(a[1..], b[1..], c[1..]);
    }
  }

  predicate Sorted(s: seq<string>) {
    forall i, j :: 0 <= i < j < |s| ==> Le(s[i], s[j])
  }

  lemma HeadIsLeast(s: seq<string>, x: string)
    requires Sorted(s) && x in s
    ensures Le(s[0], x)
  {
    LeTotal(x, x);
  }

  lemma MultisetUncons(s: seq<string>)
    requires s != []
    ensures multiset(s[1..]) == multiset(s) - multiset{s[0]}
  {
    assert s == [s[0]] + s[1..];
  }

  lemma SameHead(a: seq<string>, b: seq<string>)
    requires Sorted(a) && Sorted(b) && multiset(a) == multiset(b) && a != [] && b != []
    ensures a[0] == b[0]
  {
    assert a[0] in multiset(b) && b[0] in multiset(a);
    HeadIsLeast(a, b[0]);
    HeadIsLeast(b, a[0]);
    LeAntisymmetric(a[0], b[0]);
  }

  /** A sorted sequence is determined by the bag of its elements. */
  lemma {:induction false} SortedUnique(a: seq<string>, b: seq<string>)
    requires Sorted(a) && Sorted(b) && multiset(a) == multiset(b)
    ensures a == b
  {
    if a == [] || b == [] {
      assert |multiset(a)| == |a| && |multiset(b)| == |b|;
    } else {
      SameHead(a, b);
      MultisetUncons(a);
      MultisetUncons(b);
      SortedUnique(a[1..], b[1..]);
      assert a == [a[0]] + a[1..] && b == [b[0]] + b[1..];
    }
  }

  lemma InFront(x: string, s: seq<string>)
    requires Sorted(s) && forall y :: y in s ==> Le(x, y)
    ensures Sorted([x] + s)
  {
  }

  lemma BelowAll(x: string, s: seq<string>)
    requires Sorted(s) && s != [] && Le(x, s[0])
    ensures forall y :: y in s ==> Le(x, y)
  {
    forall y | y in s ensures Le(x, y) {
      HeadIsLeast(s, y);
      LeTransitive(x, s[0], y);
    }
  }

  /** The head stays below its tail when something above it joins the tail. */
  lemma HeadStaysBelow(x: string, s: seq<string>, t: seq<string>)
    requires Sorted(s) && s != [] && Le(s[0], x) && multiset(t) == multiset{x} + multiset(s[1..])
    ensures forall y :: y in t ==> Le(s[0], y)
  {
    forall y | y in t ensures Le(s[0], y) {
      assert y in multiset(t);
      if y != x {
        assert y in multiset(s[1..]);
        HeadIsLeast(s, y);
      }
    }
  }

  function Insert(x: string, s: seq<string>): (r: seq<string>)
    requires Sorted(s)
    ensures Sorted(r) && multiset(r) == multiset{x} + multiset(s)
  {
    if s == [] then
      [x]
    else if Le(x, s[0]) then
      BelowAll(x, s);
      InFront(x, s);
      [x] + s
    else
      LeTotal(x, s[0]);
      var t := Insert(x, s[1..]);
      assert s == [s[0]] + s[1..];
      HeadStaysBelow(x, s, t);
      InFront(s[0], t);
      [s[0]] + t
  }

  /** What Go's slices.Sort leaves: the same strings, in order. */
  function Sort(s: seq<string>): (r: seq<string>)
    ensures Sorted(r) && multiset(r) == multiset(s)
  {
    if s == [] then [] else
      assert s == [s[0]] + s[1..];
      Insert(s[0], Sort(s[1..]))
  }

  /** Sorting forgets the order its input came in. */
  lemma SortIgnoresOrder(s: seq<string>, t: seq<string>)
    requires multiset(s) == multiset(t)
    ensures Sort(s) == Sort(t)
  {
    SortedUnique(Sort(s), Sort(t));
  }

  /** A nonempty set of strings has a least element. */
  lemma {:induction false} LeastExists(ks: set<string>) returns (m: string)
    requires ks != {}
    ensures m in ks && forall k :: k in ks ==> Le(m, k)
  {
    m :| m in ks;
    LeTotal(m, m);
    if ks != {m} {
      var n := LeastExists(ks - {m});
      LeTotal(m, n);
      if Le(n, m) {
        m := n;
      } else {
        forall k | k in ks ensures Le(m, k) {
          if k != m { LeTransitive(m, n, k); }
        }
      }
    }
  }

  predicate LeastOf(ks: set<string>, m: string) {
    m in ks && forall k :: k in ks ==> Le(m, k)
  }

  lemma LeastUnique(ks: set<string>, m: string, n: string)
    requires LeastOf(ks, m) && LeastOf(ks, n)
    ensures m == n
  {
    LeAntisymmetric(m, n);
  }

  function Least(ks: set<string>): (m: string)
    requires ks != {}
    ensures LeastOf(ks, m)
  {
    assert exists m :: LeastOf(ks, m) by { var m := LeastExists(ks); assert LeastOf(ks, m); }
    assert forall m, n | LeastOf(ks, m) && LeastOf(ks, n) :: m == n by {
      forall m, n | LeastOf(ks, m) && LeastOf(ks, n) ensures m == n { LeastUnique(ks, m, n); }
    }
    var m :| LeastOf(ks, m);
    m
  }

  ghost predicate Increasing(r: seq<string>) {
    forall i, j :: 0 <= i < j < |r| ==> r[i] != r[j] && Le(r[i], r[j])
  }

  lemma LeastInFront(m: string, r: seq<string>)
    requires Increasing(r) && m !in r && forall k :: k in r ==> Le(m, k)
    ensures Increasing([m] + r)
  {
  }

  /** The keys of a map in the order encoding/json writes them: strictly increasing, each once. */
  function SortedKeys(ks: set<string>): (r: seq<string>)
    ensures |r| == |ks| && forall k :: k in r <==> k in ks
    ensures Increasing(r)
  {
    if ks == {} then [] else
      var m := Least(ks);
      var r := SortedKeys(ks - {m});
      LeastInFront(m, r);
      [m] + r
  }
}
