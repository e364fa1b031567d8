/** The two fingerprints by which the mtg manager tells whether a configuration changed. */
module MtgFingerprint {
  import opened Decimal
  import opened Joining
  import opened Lexicographic
  import opened Scanning

  datatype SecretEntry = SecretEntry(name: string, secret: string, adTag: string, quotaBytes: int, expiresUnix: int)

  datatype Instance = Instance(
    id: int, tag: string, listen: string, port: int, secrets: seq<SecretEntry>,
    debug: bool, proxyProtocolListener: bool, preferIP: string,
    frontingIP: string, frontingPort: int, frontingProxyProtocol: bool,
    throttleMaxConnections: int, publicIPv4: string, publicIPv6: string,
    routeThroughXray: bool, xrayRoutePort: int)

  function BoolText(b: bool): string {
    if b then "true" else "false"
  }

  function Listen(inst: Instance): string {
    if inst.listen == "" then "0.0.0.0" else inst.listen
  }

  function BindTo(inst: Instance): string {
    Listen(inst) + ":" + IntText(inst.port)
  }

  function StructuralParts(inst: Instance): seq<string> {
    [ BindTo(inst),
      BoolText(inst.debug),
      BoolText(inst.proxyProtocolListener),
      inst.preferIP,
      inst.frontingIP,
      IntText(inst.frontingPort),
      BoolText(inst.frontingProxyProtocol),
      IntText(inst.throttleMaxConnections),
      BoolText(inst.routeThroughXray),
      IntText(inst.xrayRoutePort),
      inst.publicIPv4,
      inst.publicIPv6 ]
  }

  function StructuralFingerprint(inst: Instance): string {
    Join(StructuralParts(inst), "|")
  }

  /** The two instances ask for the same structure: only id, tag and secrets may differ, and an absent
      listen address counts as 0.0.0.0. */
  ghost predicate SameStructure(a: Instance, b: Instance) {
    && (if a.listen == "" then "0.0.0.0" else a.listen) == (if b.listen == "" then "0.0.0.0" else b.listen)
    && a.port == b.port
    && a.debug == b.debug && a.proxyProtocolListener == b.proxyProtocolListener
    && a.preferIP == b.preferIP && a.frontingIP == b.frontingIP && a.frontingPort == b.frontingPort
    && a.frontingProxyProtocol == b.frontingProxyProtocol
    && a.throttleMaxConnections == b.throttleMaxConnections
    && a.routeThroughXray == b.routeThroughXray && a.xrayRoutePort == b.xrayRoutePort
    && a.publicIPv4 == b.publicIPv4 && a.publicIPv6 == b.publicIPv6
  }

  /** No text field holds the separator. */
  predicate BarFree(inst: Instance) {
    && '|' !in inst.listen && '|' !in inst.preferIP && '|' !in inst.frontingIP
    && '|' !in inst.publicIPv4 && '|' !in inst.publicIPv6
  }

  lemma NotInInt(n: int, c: char)
    requires !IsDigit(c) && c != '-'
    ensures c !in IntText(n)
  {
    IntTextChars(n);
  }

  lemma PartsFree(inst: Instance)
    requires BarFree(inst)
    ensures Free(StructuralParts(inst), '|')
  {
    NotInInt(inst.port, '|');
    NotInInt(inst.frontingPort, '|');
    NotInInt(inst.throttleMaxConnections, '|');
    NotInInt(inst.xrayRoutePort, '|');
    NoBar(inst.debug);
    NoBar(inst.proxyProtocolListener);
    NoBar(inst.frontingProxyProtocol);
    NoBar(inst.routeThroughXray);
  }

  lemma NoBar(b: bool)
    ensures '|' !in BoolText(b)
  {}

  lemma BoolTextInjective(a: bool, b: bool)
    ensures BoolText(a) == BoolText(b) ==> a == b
  {
    assert BoolText(true)[0] == 't' && BoolText(false)[0] == 'f';
  }

  /** A text without the colon after the last colon is cut there in only one way. */
  lemma CutAtLast(x: string, y: string, x': string, y': string, sep: char)
    requires sep !in y && sep !in y'
    requires x + [sep] + y == x' + [sep] + y'
    ensures x == x' && y == y'
  {
    var s, s' := x + [sep] + y, x' + [sep] + y';
    assert s[|x|] == sep && s'[|x'|] == sep;
    forall k | |x| < k < |s| ensures s[k] != sep {
      assert s[k] == y[k - |x| - 1] && y[k - |x| - 1] in y;
    }
    forall k | |x'| < k < |s'| ensures s'[k] != sep {
      assert s'[k] == y'[k - |x'| - 1] && y'[k - |x'| - 1] in y';
    }
    assert |x| == |x'|;
    assert x == s[..|x|] && x' == s'[..|x|];
    assert y == s[|x| + 1..] && y' == s'[|x| + 1..];
  }

  lemma BindToInjective(a: Instance, b: Instance)
    requires BindTo(a) == BindTo(b)
    ensures Listen(a) == Listen(b) && a.port == b.port
  {
    NotInInt(a.port, ':');
    NotInInt(b.port, ':');
    CutAtLast(Listen(a), IntText(a.port), Listen(b), IntText(b.port), ':');
    IntTextInjective(a.port, b.port);
  }

  /** Equal parts are equal fields. */
  lemma PartsDetermine(a: Instance, b: Instance)
    requires StructuralParts(a) == StructuralParts(b)
    ensures SameStructure(a, b)
  {
    var p, q := StructuralParts(a), StructuralParts(b);
    assert p[0] == q[0] && p[1] == q[1] && p[2] == q[2] && p[3] == q[3] && p[4] == q[4] && p[5] == q[5];
    assert p[6] == q[6] && p[7] == q[7] && p[8] == q[8] && p[9] == q[9] && p[10] == q[10] && p[11] == q[11];
    BindToInjective(a, b);
    BoolTextInjective(a.debug, b.debug);
    BoolTextInjective(a.proxyProtocolListener, b.proxyProtocolListener);
    BoolTextInjective(a.frontingProxyProtocol, b.frontingProxyProtocol);
    BoolTextInjective(a.routeThroughXray, b.routeThroughXray);
    IntTextInjective(a.frontingPort, b.frontingPort);
    IntTextInjective(a.throttleMaxConnections, b.throttleMaxConnections);
    IntTextInjective(a.xrayRoutePort, b.xrayRoutePort);
  }

  /** When one of the two instances has no separator in its fields, whatever the other holds, the structural
      fingerprint is exact: it moves if and only if the structure does. */
  lemma StructuralFingerprintExact(a: Instance, b: Instance)
    requires BarFree(a)
    ensures StructuralFingerprint(a) == StructuralFingerprint(b) <==> SameStructure(a, b)
  {
    if StructuralFingerprint(a) == StructuralFingerprint(b) {
      PartsFree(a);
      JoinCounts(StructuralParts(a), '|');
      JoinCounts(StructuralParts(b), '|');
      JoinInjective(StructuralParts(a), StructuralParts(b), '|');
      PartsDetermine(a, b);
    }
  }

  /** With a separator in a field it can miss a change. */
  lemma CollidingTails(t: string)
    ensures "p|q" + "|" + ("r" + "|" + t) == "p" + "|" + ("q|r" + "|" + t)
  {
    assert "p|q" + "|" + ("r" + "|" + t) == "p|q|r|" + t;
    assert "p" + "|" + ("q|r" + "|" + t) == "p|q|r|" + t;
  }

  lemma CollidingParts(p: seq<string>, q: seq<string>)
    requires |p| == |q| > 5 && p[..3] == q[..3] && p[5..] == q[5..]
    requires p[3] == "p|q" && p[4] == "r" && q[3] == "p" && q[4] == "q|r"
    ensures Join(p, "|") == Join(q, "|")
  {
    JoinTail(p, 4);
    JoinTail(q, 4);
    CollidingTails(Join(p[5..], "|"));
    SameHeadSameJoin(p, q, 3);
  }

  lemma StructuralFingerprintCollides(base: Instance)
    ensures var (a, b) := (base.(preferIP := "p|q", frontingIP := "r"), base.(preferIP := "p", frontingIP := "q|r"));
      StructuralFingerprint(a) == StructuralFingerprint(b) && !SameStructure(a, b)
  {
    var a, b := base.(preferIP := "p|q", frontingIP := "r"), base.(preferIP := "p", frontingIP := "q|r");
    var p, q := StructuralParts(a), StructuralParts(b);
    assert p[..3] == q[..3] && p[5..] == q[5..];
    CollidingParts(p, q);
  }

  lemma JoinTail(parts: seq<string>, k: nat)
    requires 0 < k && k + 1 < |parts|
    ensures Join(parts[k..], "|") == parts[k] + "|" + Join(parts[k + 1..], "|")
    ensures Join(parts[k - 1..], "|") == parts[k - 1] + "|" + Join(parts[k..], "|")
  {
    assert parts[k..][1..] == parts[k + 1..];
    assert parts[k - 1..][1..] == parts[k..];
  }

  lemma {:induction false} SameHeadSameJoin(p: seq<string>, q: seq<string>, k: nat)
    requires k < |p| && k < |q| && p[..k] == q[..k] && Join(p[k..], "|") == Join(q[k..], "|")
    ensures Join(p, "|") == Join(q, "|")
  {
    if k == 0 {
      assert p[0..] == p && q[0..] == q;
    } else {
      assert p[1..][k - 1..] == p[k..] && q[1..][k - 1..] == q[k..];
      assert p[1..][..k - 1] == p[..k][1..] && q[1..][..k - 1] == q[..k][1..];
      assert p[0] == p[..k][0] && q[0] == q[..k][0];
      SameHeadSameJoin(p[1..], q[1..], k - 1);
    }
  }

  // ---------- secrets ----------

  function EntryText(e: SecretEntry): string {
    e.name + "=" + e.secret + ";tag=" + e.adTag + ";q=" + IntText(e.quotaBytes) + ";exp=" + IntText(e.expiresUnix)
  }

  function Mapped<A, B>(f: A -> B, s: seq<A>): seq<B> {
    if s == [] then [] else Mapped(f, s[..|s| - 1]) + [f(s[|s| - 1])]
  }

  function EntryTexts(secrets: seq<SecretEntry>): seq<string> {
    Mapped(EntryText, secrets)
  }

  function SecretsFingerprint(secrets: seq<SecretEntry>): string {
    Join(Sort(EntryTexts(secrets)), "|")
  }

  method ComputeSecretsFingerprint(inst: Instance) returns (fp: string)
    ensures fp == SecretsFingerprint(inst.secrets)
  {
    var pairs: seq<string> := [];
    for i := 0 to |inst.secrets|
      invariant pairs == EntryTexts(inst.secrets[..i])
    {
      assert inst.secrets[..i + 1][..i] == inst.secrets[..i];
      pairs := pairs + [EntryText(inst.secrets[i])];
    }
    assert inst.secrets[..|inst.secrets|] == inst.secrets;
    fp := Join(Sort(pairs), "|");
  }

  function Drop<A>(s: seq<A>, i: nat): seq<A>
    requires i < |s|
  {
    s[..i] + s[i + 1..]
  }

  lemma DropCount<A>(s: seq<A>, i: nat)
    requires i < |s|
    ensures multiset(s) == multiset(Drop(s, i)) + multiset{s[i]}
  {
    assert s == s[..i] + [s[i]] + s[i + 1..];
  }

  lemma Cancel<T>(p: multiset<T>, q: multiset<T>, x: T)
    requires p + multiset{x} == q + multiset{x}
    ensures p == q
  {
    assert p == (p + multiset{x}) - multiset{x};
    assert q == (q + multiset{x}) - multiset{x};
  }

  lemma DropEarlier<A>(s: seq<A>, i: nat)
    requires i < |s| - 1
    ensures Drop(s, i) == Drop(s[..|s| - 1], i) + [s[|s| - 1]]
  {
  }

  lemma DropLast<A>(s: seq<A>)
    requires s != []
    ensures Drop(s, |s| - 1) == s[..|s| - 1]
  {
  }

  lemma MappedSnoc<A, B>(f: A -> B, s: seq<A>, x: A)
    ensures Mapped(f, s + [x]) == Mapped(f, s) + [f(x)]
  {
    assert (s + [x])[..|s|] == s;
  }

  lemma {:induction false} MappedCount<A, B>(f: A -> B, s: seq<A>, i: nat)
    requires i < |s|
    ensures multiset(Mapped(f, s)) == multiset(Mapped(f, Drop(s, i))) + multiset{f(s[i])}
  {
    var n := |s| - 1;
    if i == n {
      DropLast(s);
    } else {
      MappedCount(f, s[..n], i);
      DropEarlier(s, i);
      MappedSnoc(f, Drop(s[..n], i), s[n]);
    }
  }

  /** Same elements in any order, same images in some order. */
  lemma {:induction false} MappedIgnoresOrder<A, B>(f: A -> B, a: seq<A>, b: seq<A>)
    requires multiset(a) == multiset(b)
    ensures multiset(Mapped(f, a)) == multiset(Mapped(f, b))
    decreases |a|
  {
    if a == [] {
      assert |multiset(b)| == 0;
    } else {
      var n := |a| - 1;
      assert a[n] in multiset(b);
      var i :| 0 <= i < |b| && b[i] == a[n];
      DropCount(a, n);
      DropCount(b, i);
      MappedCount(f, a, n);
      MappedCount(f, b, i);
      Cancel(multiset(Drop(a, n)), multiset(Drop(b, i)), a[n]);
      MappedIgnoresOrder(f, Drop(a, n), Drop(b, i));
    }
  }

  lemma {:induction false} MappedOrigin<A, B>(f: A -> B, s: seq<A>, y: B) returns (i: nat)
    requires y in Mapped(f, s)
    ensures i < |s| && f(s[i]) == y
  {
    i := |s| - 1;
    if f(s[i]) != y {
      var init := s[..i];
      i := MappedOrigin(f, init, y);
      assert init[i] == s[i];
    }
  }

  lemma {:induction false} MappedLength<A, B>(f: A -> B, s: seq<A>)
    ensures |Mapped(f, s)| == |s|
  {
    if s != [] { MappedLength(f, s[..|s| - 1]); }
  }

  /** The map tells the elements of the two lists apart. */
  ghost predicate Separates<A(!new), B>(f: A -> B, a: seq<A>, b: seq<A>) {
    forall x, y :: x in a && y in b && f(x) == f(y) ==> x == y
  }

  lemma SeparatesDrop<A(!new), B>(f: A -> B, a: seq<A>, b: seq<A>, i: nat, j: nat)
    requires Separates(f, a, b) && i < |a| && j < |b|
    ensures Separates(f, Drop(a, i), Drop(b, j))
  {
    forall x | x in Drop(a, i) ensures x in a { DropCount(a, i); assert x in multiset(a); }
    forall y | y in Drop(b, j) ensures y in b { DropCount(b, j); assert y in multiset(b); }
  }

  /** Where the map is injective the images determine the elements. */
  lemma {:induction false} MappedDetermines<A(!new), B>(f: A -> B, a: seq<A>, b: seq<A>)
    requires Separates(f, a, b)
    requires multiset(Mapped(f, a)) == multiset(Mapped(f, b))
    ensures multiset(a) == multiset(b)
    decreases |a|
  {
    MappedLength(f, b);
    if a == [] {
      assert |multiset(Mapped(f, b))| == |b|;
    } else {
      var n := |a| - 1;
      assert Mapped(f, a)[|Mapped(f, a)| - 1] == f(a[n]);
      assert f(a[n]) in multiset(Mapped(f, b));
      var i := MappedOrigin(f, b, f(a[n]));
      MappedCount(f, a, n);
      MappedCount(f, b, i);
      DropCount(a, n);
      DropCount(b, i);
      SeparatesDrop(f, a, b, n, i);
      Cancel(multiset(Mapped(f, Drop(a, n))), multiset(Mapped(f, Drop(b, i))), f(a[n]));
      MappedDetermines(f, Drop(a, n), Drop(b, i));
      assert a[n] == b[i];
    }
  }

  /** A reordered client list does not read as a change. */
  lemma SecretsFingerprintIgnoresOrder(a: seq<SecretEntry>, b: seq<SecretEntry>)
    requires multiset(a) == multiset(b)
    ensures SecretsFingerprint(a) == SecretsFingerprint(b)
  {
    MappedIgnoresOrder(EntryText, a, b);
    SortIgnoresOrder(EntryTexts(a), EntryTexts(b));
  }

  /** No text of the entry holds the bar, and its secret and tag no equals sign; the name may. */
  predicate Clean(e: SecretEntry) {
    && '=' !in e.secret && '=' !in e.adTag
    && '|' !in e.name && '|' !in e.secret && '|' !in e.adTag
  }

  /** Secrets and tags as the panel makes and checks them are hexadecimal, so that only the name can hold a bar. */
  predicate Hexadecimal(s: string) {
    forall i :: 0 <= i < |s| ==> HexValue(s[i]) >= 0
  }

  lemma ServableIsClean(e: SecretEntry)
    requires Hexadecimal(e.secret) && Hexadecimal(e.adTag)
    ensures Clean(e) <==> '|' !in e.name
  {
    assert HexValue('=') < 0 && HexValue('|') < 0;
  }

  /** The entry's text, to be cut from the right at its equals signs. */
  lemma EntryTextParts(e: SecretEntry)
    ensures EntryText(e) ==
      (((e.name + ['='] + e.secret + ";tag") + ['='] + e.adTag + ";q") + ['='] + IntText(e.quotaBytes) + ";exp")
      + ['='] + IntText(e.expiresUnix)
  {
  }

  lemma SamePrefix(x: string, y: string, end: string)
    requires x + end == y + end
    ensures x == y
  {
    assert |x| == |y| && (x + end)[..|x|] == x && (y + end)[..|y|] == y;
  }

  /** One cut: a text behind the last equals sign, and a fixed word before that sign. */
  lemma CutField(x: string, v: string, x': string, v': string, word: string)
    requires '=' !in v && '=' !in v' && (x + word) + ['='] + v == (x' + word) + ['='] + v'
    ensures x == x' && v == v'
  {
    CutAtLast(x + word, v, x' + word, v', '=');
    SamePrefix(x, x', word);
  }

  lemma EntryTextInjective(a: SecretEntry, b: SecretEntry)
    requires Clean(a) && Clean(b) && EntryText(a) == EntryText(b)
    ensures a == b
  {
    EntryTextParts(a);
    EntryTextParts(b);
    NotInInt(a.expiresUnix, '=');
    NotInInt(b.expiresUnix, '=');
    NotInInt(a.quotaBytes, '=');
    NotInInt(b.quotaBytes, '=');
    var (na, nb) := (a.name + ['='] + a.secret, b.name + ['='] + b.secret);
    var (ta, tb) := (na + ";tag" + ['='] + a.adTag, nb + ";tag" + ['='] + b.adTag);
    var (qa, qb) := (ta + ";q" + ['='] + IntText(a.quotaBytes), tb + ";q" + ['='] + IntText(b.quotaBytes));
    CutField(qa, IntText(a.expiresUnix), qb, IntText(b.expiresUnix), ";exp");
    CutField(ta, IntText(a.quotaBytes), tb, IntText(b.quotaBytes), ";q");
    CutField(na, a.adTag, nb, b.adTag, ";tag");
    CutAtLast(a.name, a.secret, b.name, b.secret, '=');
    IntTextInjective(a.quotaBytes, b.quotaBytes);
    IntTextInjective(a.expiresUnix, b.expiresUnix);
  }

  ghost predicate AllClean(secrets: seq<SecretEntry>) {
    forall i :: 0 <= i < |secrets| ==> Clean(secrets[i])
  }

  lemma EntryTextFree(e: SecretEntry)
    requires Clean(e)
    ensures '|' !in EntryText(e) && EntryText(e) != ""
  {
    NotInInt(e.quotaBytes, '|');
    NotInInt(e.expiresUnix, '|');
  }

  /** On clean entries the secrets fingerprint is exact: it moves if and only if the bag of entries does. */
  lemma SecretsFingerprintExact(a: seq<SecretEntry>, b: seq<SecretEntry>)
    requires AllClean(a) && AllClean(b)
    ensures SecretsFingerprint(a) == SecretsFingerprint(b) <==> multiset(a) == multiset(b)
  {
    if multiset(a) == multiset(b) {
      SecretsFingerprintIgnoresOrder(a, b);
    }
    if SecretsFingerprint(a) == SecretsFingerprint(b) {
      SortedTexts(a);
      SortedTexts(b);
      var p, q := Sort(EntryTexts(a)), Sort(EntryTexts(b));
      if p != [] && q != [] {
        JoinInjective(p, q, '|');
      } else if p != [] {
        JoinNonEmpty(p);
      } else if q != [] {
        JoinNonEmpty(q);
      }
      forall x, y | x in a && y in b && EntryText(x) == EntryText(y) ensures x == y {
        EntryTextInjective(x, y);
      }
      MappedDetermines(EntryText, a, b);
    }
  }

  lemma JoinNonEmpty(parts: seq<string>)
    requires parts != [] && parts[0] != ""
    ensures Join(parts, "|") != ""
  {
  }

  lemma SortedTexts(secrets: seq<SecretEntry>)
    requires AllClean(secrets)
    ensures Free(Sort(EntryTexts(secrets)), '|')
    ensures forall i :: 0 <= i < |Sort(EntryTexts(secrets))| ==> Sort(EntryTexts(secrets))[i] != ""
  {
    var p := Sort(EntryTexts(secrets));
    forall i | 0 <= i < |p| ensures '|' !in p[i] && p[i] != "" {
      assert p[i] in multiset(p);
      assert p[i] in EntryTexts(secrets);
      var k := MappedOrigin(EntryText, secrets, p[i]);
      EntryTextFree(secrets[k]);
    }
  }

  /** A bar in a name can hide a change: whatever the secrets, two clients read like one whose name spells the first
      of them out. */
  lemma SecretsFingerprintCollides(s1: string, s2: string)
    ensures var (x, y) := (SecretEntry("x", s1, "", 0, 0), SecretEntry("y", s2, "", 0, 0));
      var z := SecretEntry("x=" + s1 + ";tag=;q=0;exp=0|y", s2, "", 0, 0);
      multiset([x, y]) != multiset([z]) && SecretsFingerprint([x, y]) == SecretsFingerprint([z])
  {
    var (x, y) := (SecretEntry("x", s1, "", 0, 0), SecretEntry("y", s2, "", 0, 0));
    var z := SecretEntry("x=" + s1 + ";tag=;q=0;exp=0|y", s2, "", 0, 0);
    assert |multiset([x, y])| == 2 && |multiset([z])| == 1;
    SpelledOut(s1, s2);
    TwoTexts(x, y);
    OneText(z);
  }

  /** The text of a client without tag, quota or expiry. */
  lemma PlainText(name: string, secret: string)
    ensures EntryText(SecretEntry(name, secret, "", 0, 0)) == name + "=" + (secret + ";tag=;q=0;exp=0")
  {
    assert IntText(0) == "0";
    assert ";tag=" + "" + ";q=" + "0" + ";exp=" + "0" == ";tag=;q=0;exp=0";
  }

  lemma Regrouped(x: string, e: string, u: string, bar: string, y: string, v: string)
    ensures (x + e + (u + (bar + y))) + e + v == (x + e + u) + bar + (y + e + v)
  {
  }

  lemma SpelledOut(s1: string, s2: string)
    ensures EntryText(SecretEntry("x=" + s1 + ";tag=;q=0;exp=0|y", s2, "", 0, 0)) ==
      EntryText(SecretEntry("x", s1, "", 0, 0)) + "|" + EntryText(SecretEntry("y", s2, "", 0, 0))
  {
    var (u, v) := (s1 + ";tag=;q=0;exp=0", s2 + ";tag=;q=0;exp=0");
    assert "x=" + s1 + ";tag=;q=0;exp=0|y" == "x" + "=" + (u + ("|" + "y"));
    PlainText("x=" + s1 + ";tag=;q=0;exp=0|y", s2);
    PlainText("x", s1);
    PlainText("y", s2);
    Regrouped("x", "=", u, "|", "y", v);
  }

  lemma EntryTextStarts(e: SecretEntry)
    requires e.name != ""
    ensures EntryText(e) != "" && EntryText(e)[0] == e.name[0]
  {
  }

  lemma OneText(z: SecretEntry)
    ensures SecretsFingerprint([z]) == EntryText(z)
  {
    MappedSnoc(EntryText, [], z);
    assert [] + [z] == [z] && EntryTexts([z]) == [EntryText(z)];
    SortSorted([EntryText(z)]);
  }

  lemma TwoTexts(x: SecretEntry, y: SecretEntry)
    requires x.name != "" && y.name != "" && x.name[0] < y.name[0]
    ensures SecretsFingerprint([x, y]) == EntryText(x) + "|" + EntryText(y)
  {
    EntryTextStarts(x);
    EntryTextStarts(y);
    TextsOfTwo(x, y);
    SortedPair(EntryText(x), EntryText(y));
  }

  lemma TextsOfTwo(x: SecretEntry, y: SecretEntry)
    ensures EntryTexts([x, y]) == [EntryText(x), EntryText(y)]
  {
    MappedSnoc(EntryText, [], x);
    MappedSnoc(EntryText, [x], y);
    assert [] + [x] == [x] && [x] + [y] == [x, y];
  }

  lemma SortedPair(a: string, b: string)
    requires a != "" && b != "" && a[0] < b[0]
    ensures Join(Sort([a, b]), "|") == a + "|" + b
  {
    SortSorted([a, b]);
  }

  /** A sorted list is its own sorting. */
  lemma SortSorted(s: seq<string>)
    requires Sorted(s)
    ensures Sort(s) == s
  {
    SortedUnique(Sort(s), s);
  }
}
