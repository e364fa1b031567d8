/** Unique, non-empty names for the proxies of a Clash profile. */
module ProxyNames {
  import opened Decimal

  /** `name`, `kind` and `server` are empty when the entry is missing or no string; `port` is the port as text. */
  datatype Proxy = Proxy(name: string, kind: string, server: string, port: string)

  function FallbackProxyName(p: Proxy, idx: nat): (name: string)
    ensures name != ""
  {
    if p.kind != "" && p.server != "" then p.kind + "-" + p.server + "-" + p.port
    else "proxy-" + IntText(idx + 1)
  }

  function Base(p: Proxy, idx: nat): (name: string)
    ensures name != ""
  {
    if p.name == "" then FallbackProxyName(p, idx) else p.name
  }

  /** The n-th name tried for a base: the base itself, then base-2, base-3 and so on. */
  function Candidate(base: string, n: nat): string
    requires n >= 1
  {
    if n == 1 then base else base + "-" + IntText(n)
  }

  lemma CandidatesDiffer(base: string, m: nat, n: nat)
    requires 1 <= m < n
    ensures Candidate(base, m) != Candidate(base, n)
  {
    var last := Candidate(base, n);
    assert |last| > |base|;
    if m > 1 {
      assert last[|base| + 1..] == IntText(n) && Candidate(base, m)[|base| + 1..] == IntText(m);
      IntTextInjective(m, n);
    }
  }

  /** The first candidate not seen. */
  ghost predicate FirstFree(base: string, seen: set<string>, n: nat) {
    n >= 1 && Candidate(base, n) !in seen && forall k :: 1 <= k < n ==> Candidate(base, k) in seen
  }

  ghost predicate Chosen(base: string, seen: set<string>, name: string) {
    exists n: nat :: FirstFree(base, seen, n) && name == Candidate(base, n)
  }

  /** The seen names that are candidates from the n-th on: each can be met only once. */
  ghost function Ahead(base: string, seen: set<string>, n: nat): set<string>
    requires n >= 1
  {
    set s | s in seen && exists k :: k >= n && s == Candidate(base, k)
  }

  lemma OneFewerAhead(base: string, seen: set<string>, n: nat)
    requires n >= 1 && Candidate(base, n) in seen
    ensures Ahead(base, seen, n + 1) < Ahead(base, seen, n)
  {
    forall k | k >= n + 1 ensures Candidate(base, k) != Candidate(base, n) { CandidatesDiffer(base, n, k); }
    assert Candidate(base, n) in Ahead(base, seen, n);
  }

  /** The suffix search: there are only so many names to run into. */
  method PickName(base: string, seen: set<string>) returns (name: string)
    ensures Chosen(base, seen, name)
  {
    name := base;
    var n := 2;
    while name in seen
      invariant n >= 2 && name == Candidate(base, n - 1)
      invariant forall k :: 1 <= k < n - 1 ==> Candidate(base, k) in seen
      decreases Ahead(base, seen, n - 1)
    {
      OneFewerAhead(base, seen, n - 1);
      name := base + "-" + IntText(n);
      n := n + 1;
    }
    assert FirstFree(base, seen, n - 1);
  }

  function NamesOf(proxies: seq<Proxy>): set<string> {
    set p | p in proxies :: p.name
  }

  /** Every proxy got the first free candidate of its base, given the names of those before it, and nothing else
      about it changed. */
  ghost predicate Renamed(before: seq<Proxy>, after: seq<Proxy>) {
    |after| == |before| && forall i :: 0 <= i < |after| ==> EntryRenamed(before, after, i)
  }

  ghost predicate EntryRenamed(before: seq<Proxy>, after: seq<Proxy>, i: nat)
    requires i < |before| && i < |after|
  {
    RenamedAt(before[i], i, NamesOf(after[..i]), after[i])
  }

  ghost predicate RenamedAt(p: Proxy, idx: nat, seen: set<string>, q: Proxy) {
    q == p.(name := q.name) && Chosen(Base(p, idx), seen, q.name)
  }

  lemma OneReplaced(done: seq<Proxy>, before: seq<Proxy>, i: nat, q: Proxy)
    requires |done| == i < |before|
    ensures (done + before[i..])[i := q] == (done + [q]) + before[i + 1..]
    ensures before[..i + 1] == before[..i] + [before[i]]
  {
  }

  /** The body of the loop. */
  method RenameNext(proxies: array<Proxy>, i: nat, seen: set<string>, ghost before: seq<Proxy>, ghost done: seq<Proxy>)
      returns (name: string)
    requires i < proxies.Length && |done| == i < |before| && proxies[..] == done + before[i..]
    modifies proxies
    ensures Chosen(Base(before[i], i), seen, name)
    ensures proxies[..] == (done + [before[i].(name := name)]) + before[i + 1..]
  {
    assert proxies[i] == proxies[..][i] == before[i];
    var base := proxies[i].name;
    if base == "" {
      base := FallbackProxyName(proxies[i], i);
    }
    name := PickName(base, seen);
    ghost var was := proxies[..];
    proxies[i] := proxies[i].(name := name);
    assert proxies[..] == was[i := before[i].(name := name)];
    OneReplaced(done, before, i, before[i].(name := name));
  }

  method EnsureUniqueProxyNames(proxies: array<Proxy>)
    modifies proxies
    ensures Renamed(old(proxies[..]), proxies[..])
  {
    ghost var before, done := proxies[..], [];
    var seen: set<string> := {};
    for i := 0 to proxies.Length
      invariant |done| == i && proxies[..] == done + before[i..] && seen == NamesOf(done)
      invariant Renamed(before[..i], done)
    {
      var name := RenameNext(proxies, i, seen, before, done);
      OneReplaced(done, before, i, before[i].(name := name));
      RenamedMore(before[..i], done, before[i], name);
      seen := seen + {name};
      done := done + [before[i].(name := name)];
    }
    assert before[..proxies.Length] == before && done + before[proxies.Length..] == done;
  }

  lemma RenamedMore(before: seq<Proxy>, done: seq<Proxy>, p: Proxy, name: string)
    requires Renamed(before, done) && Chosen(Base(p, |before|), NamesOf(done), name)
    ensures Renamed(before + [p], done + [p.(name := name)])
    ensures NamesOf(done + [p.(name := name)]) == NamesOf(done) + {name}
  {
    var more, after, n := before + [p], done + [p.(name := name)], |before|;
    OneMoreName(done, p.(name := name));
    assert RenamedAt(p, n, NamesOf(done), p.(name := name));
    forall i | 0 <= i < |after| ensures EntryRenamed(more, after, i) {
      if i < n {
        assert after[..i] == done[..i] && EntryRenamed(before, done, i);
      } else {
        assert after[..i] == done;
      }
    }
  }

  lemma OneMoreName(done: seq<Proxy>, q: Proxy)
    ensures NamesOf(done + [q]) == NamesOf(done) + {q.name}
  {
    assert (done + [q])[|done|] == q;
    forall x | x in NamesOf(done) ensures x in NamesOf(done + [q]) {
      var p :| p in done && p.name == x;
      assert p in done + [q];
    }
  }

  lemma RenamedFront(before: seq<Proxy>, after: seq<Proxy>, n: nat)
    requires Renamed(before, after) && n <= |before|
    ensures Renamed(before[..n], after[..n])
  {
    forall i | 0 <= i < n ensures EntryRenamed(before[..n], after[..n], i) {
      assert after[..n][..i] == after[..i] && EntryRenamed(before, after, i);
    }
  }

  // ---------- what the renaming gives ----------

  ghost predicate BaseOrNumbered(base: string, name: string) {
    name == base || exists n :: n >= 2 && name == base + "-" + IntText(n)
  }

  /** All names are non-empty and pairwise distinct; each is its base, or the base with a number of at least 2; and a
      base nobody before uses is kept. */
  lemma NamesAreUnique(before: seq<Proxy>, after: seq<Proxy>)
    requires Renamed(before, after)
    ensures forall i :: 0 <= i < |after| ==> after[i].name != ""
    ensures forall i, j :: 0 <= i < j < |after| ==> after[i].name != after[j].name
    ensures forall i :: 0 <= i < |after| ==>
      BaseOrNumbered(Base(before[i], i), after[i].name)
    ensures forall i :: 0 <= i < |after| ==>
      (Base(before[i], i) !in NamesOf(after[..i]) ==> after[i].name == Base(before[i], i))
  {
    forall i | 0 <= i < |after|
      ensures after[i].name != "" && after[i].name !in NamesOf(after[..i])
      ensures BaseOrNumbered(Base(before[i], i), after[i].name)
      ensures Base(before[i], i) !in NamesOf(after[..i]) ==> after[i].name == Base(before[i], i)
    {
      var base, seen := Base(before[i], i), NamesOf(after[..i]);
      assert EntryRenamed(before, after, i);
      var n: nat :| FirstFree(base, seen, n) && after[i].name == Candidate(base, n);
      if n > 1 { assert Candidate(base, 1) in seen; }
    }
    forall i, j | 0 <= i < j < |after| ensures after[i].name != after[j].name {
      assert after[i] == after[..j][i] && after[i] in after[..j];
    }
  }

  lemma ChoiceIsUnique(base: string, seen: set<string>, a: string, b: string)
    requires Chosen(base, seen, a) && Chosen(base, seen, b)
    ensures a == b
  {
    var m: nat :| FirstFree(base, seen, m) && a == Candidate(base, m);
    var n: nat :| FirstFree(base, seen, n) && b == Candidate(base, n);
    assert Candidate(base, m) !in seen && Candidate(base, n) !in seen;
    assert m == n;
  }

  lemma UnusedBaseIsKept(p: Proxy, idx: nat, seen: set<string>, q: Proxy)
    requires RenamedAt(p, idx, seen, q) && p.name != "" && p.name !in seen
    ensures q == p
  {
    assert FirstFree(p.name, seen, 1);
    assert Chosen(Base(p, idx), seen, p.name);
    ChoiceIsUnique(Base(p, idx), seen, q.name, p.name);
  }

  /** Proxies whose names already are non-empty and distinct stay as they are; so a second run changes nothing. */
  lemma {:induction false} UniqueNamesStay(before: seq<Proxy>, after: seq<Proxy>)
    requires Renamed(before, after)
    requires forall i :: 0 <= i < |before| ==> before[i].name != ""
    requires forall i, j :: 0 <= i < j < |before| ==> before[i].name != before[j].name
    ensures after == before
  {
    if before != [] {
      var n := |before| - 1;
      RenamedFront(before, after, n);
      UniqueNamesStay(before[..n], after[..n]);
      assert EntryRenamed(before, after, n);
      UnusedBaseIsKept(before[n], n, NamesOf(before[..n]), after[n]);
      assert before == before[..n] + [before[n]] && after == after[..n] + [after[n]];
    }
  }

  /** What a name is built on: what the proxy was called; without a name its kind, server and port; without those its
      number in the list, from one. That name is kept unless a proxy before it has it, and is numbered then. */
  lemma NamesAreBuiltOn(before: seq<Proxy>, after: seq<Proxy>, i: nat)
    requires Renamed(before, after) && i < |before|
    ensures var p, name := before[i], after[i].name;
      var base := if p.name != "" then p.name
                  else if p.kind == "" || p.server == "" then "proxy-" + IntText(i + 1)
                  else p.kind + "-" + p.server + "-" + p.port;
      && BaseOrNumbered(base, name)
      && (name == base <==> forall j :: 0 <= j < i ==> after[j].name != base)
    ensures after[i] == before[i].(name := after[i].name)
  {
    NamesAreUnique(before, after);
    assert EntryRenamed(before, after, i);
    if Base(before[i], i) in NamesOf(after[..i]) {
      var q :| q in after[..i] && q.name == Base(before[i], i);
      var j :| 0 <= j < i && after[j] == q;
    }
  }
}
