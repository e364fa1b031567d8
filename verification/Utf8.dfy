/** Which bytes the dump writes as text: exactly those that encode characters (section 3 of RFC 3629). */
module Utf8 {
  import opened SqlDump

  /** The number of a character; the surrogates have none. */
  predicate Scalar(n: int) {
    0 <= n < 0xD800 || 0xE000 <= n < 0x110000
  }

  function Encode(n: nat): (b: Bytes)
    requires Scalar(n)
  {
    if n < 0x80 then [n as char]
    else if n < 0x800 then [(0xC0 + n / 0x40) as char, Low(n)]
    else if n < 0x10000 then [(0xE0 + n / 0x1000) as char, Low(n / 0x40), Low(n)]
    else [(0xF0 + n / 0x40000) as char, Low(n / 0x1000), Low(n / 0x40), Low(n)]
  }

  /** The lowest six bits, in a byte that goes on. */
  function Low(n: nat): (c: char)
    ensures 0x80 <= c as int < 0xC0
  {
    (0x80 + n % 0x40) as char
  }

  function EncodeAll(ns: seq<nat>): Bytes
    requires forall i :: 0 <= i < |ns| ==> Scalar(ns[i])
  {
    if ns == [] then "" else Encode(ns[0]) + EncodeAll(ns[1..])
  }

  // ---------- an encoded character is one rune ----------

  lemma TwoBytes(n: nat)
    requires 0x80 <= n < 0x800
    ensures 0xC2 <= 0xC0 + n / 0x40 <= 0xDF
  {}

  lemma ThreeBytes(n: nat)
    requires 0x800 <= n < 0x10000 && Scalar(n)
    ensures 0xE0 <= 0xE0 + n / 0x1000 <= 0xEF
    ensures n / 0x1000 == 0 ==> 0xA0 <= Low(n / 0x40) as int
    ensures n / 0x1000 == 0xD ==> Low(n / 0x40) as int <= 0x9F
  {}

  lemma FourBytes(n: nat)
    requires 0x10000 <= n < 0x110000
    ensures 0xF0 <= 0xF0 + n / 0x40000 <= 0xF4
    ensures n / 0x40000 == 0 ==> 0x90 <= Low(n / 0x1000) as int
    ensures n / 0x40000 == 4 ==> Low(n / 0x1000) as int <= 0x8F
  {}

  lemma EncodedIsRune(n: nat, rest: Bytes)
    requires Scalar(n)
    ensures 1 <= |Encode(n)| && RuneLength(Encode(n) + rest) == |Encode(n)|
  {
    var b, e := Encode(n) + rest, Encode(n);
    assert forall i :: 0 <= i < |e| ==> b[i] == e[i];
    if 0x80 <= n < 0x800 { TwoBytes(n); }
    if 0x800 <= n < 0x10000 { ThreeBytes(n); }
    if 0x10000 <= n { FourBytes(n); }
  }

  // ---------- a rune is an encoded character ----------

  function Bits(c: char): int {
    c as int - 0x80
  }

  predicate GoesOn(c: char) {
    0x80 <= c as int < 0xC0
  }

  lemma Apart(high: nat, low: nat)
    requires low < 0x40
    ensures (high * 0x40 + low) / 0x40 == high && (high * 0x40 + low) % 0x40 == low
  {}

  lemma LowIs(high: nat, c: char)
    requires GoesOn(c)
    ensures Low(high * 0x40 + Bits(c)) == c && (high * 0x40 + Bits(c)) / 0x40 == high
  {
    Apart(high, Bits(c));
  }

  lemma TwoAre(a: char, b: char) returns (n: nat)
    requires 0xC2 <= a as int <= 0xDF && GoesOn(b)
    ensures Scalar(n) && Encode(n) == [a, b]
  {
    var high := a as int - 0xC0;
    n := high * 0x40 + Bits(b);
    LowIs(high, b);
  }

  lemma Thousands(n: nat)
    ensures n / 0x40 / 0x40 == n / 0x1000 && n / 0x1000 / 0x40 == n / 0x40000
  {}

  lemma ThreeAre(a: char, b: char, c: char) returns (n: nat)
    requires 0xE0 <= a as int <= 0xEF && GoesOn(b) && GoesOn(c)
    requires a as int == 0xE0 ==> 0xA0 <= b as int
    requires a as int == 0xED ==> b as int <= 0x9F
    ensures Scalar(n) && Encode(n) == [a, b, c]
  {
    var high := a as int - 0xE0;
    var mid := high * 0x40 + Bits(b);
    n := mid * 0x40 + Bits(c);
    LowIs(high, b);
    LowIs(mid, c);
    Thousands(n);
  }

  lemma FourAre(a: char, b: char, c: char, d: char) returns (n: nat)
    requires 0xF0 <= a as int <= 0xF4 && GoesOn(b) && GoesOn(c) && GoesOn(d)
    requires a as int == 0xF0 ==> 0x90 <= b as int
    requires a as int == 0xF4 ==> b as int <= 0x8F
    ensures Scalar(n) && Encode(n) == [a, b, c, d]
  {
    var high := a as int - 0xF0;
    var upper := high * 0x40 + Bits(b);
    var mid := upper * 0x40 + Bits(c);
    n := mid * 0x40 + Bits(d);
    LowIs(high, b);
    LowIs(upper, c);
    LowIs(mid, d);
    Thousands(n);
  }

  lemma RuneIsEncoded(b: Bytes) returns (n: nat)
    requires RuneLength(b) > 0
    ensures Scalar(n) && Encode(n) == b[..RuneLength(b)]
  {
    var k := RuneLength(b);
    if k == 1 {
      n := b[0] as int;
    } else if k == 2 {
      n := TwoAre(b[0], b[1]);
    } else if k == 3 {
      n := ThreeAre(b[0], b[1], b[2]);
    } else {
      n := FourAre(b[0], b[1], b[2], b[3]);
    }
  }

  // ---------- whole texts ----------

  lemma {:induction false} EncodedIsValid(ns: seq<nat>)
    requires forall i :: 0 <= i < |ns| ==> Scalar(ns[i])
    ensures Utf8Valid(EncodeAll(ns))
  {
    if ns != [] {
      var rest := EncodeAll(ns[1..]);
      EncodedIsValid(ns[1..]);
      EncodedIsRune(ns[0], rest);
      assert (Encode(ns[0]) + rest)[|Encode(ns[0])|..] == rest;
    }
  }

  lemma OneInFront(b: Bytes, k: nat, n: nat, rest: seq<nat>)
    requires 0 < k <= |b| && Scalar(n) && Encode(n) == b[..k]
    requires (forall i :: 0 <= i < |rest| ==> Scalar(rest[i])) && b[k..] == EncodeAll(rest)
    ensures (forall i :: 0 <= i < |[n] + rest| ==> Scalar(([n] + rest)[i])) && b == EncodeAll([n] + rest)
  {
    assert ([n] + rest)[1..] == rest && b == b[..k] + b[k..];
  }

  lemma {:induction false} ValidIsEncoded(b: Bytes) returns (ns: seq<nat>)
    requires Utf8Valid(b)
    ensures (forall i :: 0 <= i < |ns| ==> Scalar(ns[i])) && b == EncodeAll(ns)
    decreases |b|
  {
    ns := [];
    if b != "" {
      var n := RuneIsEncoded(b);
      var rest := ValidIsEncoded(b[RuneLength(b)..]);
      OneInFront(b, RuneLength(b), n, rest);
      ns := [n] + rest;
    }
  }

  /** A blob counts as text exactly when it is the encoding of some characters. */
  lemma ValidExactly(b: Bytes)
    ensures Utf8Valid(b) <==> exists ns: seq<nat> :: (forall i :: 0 <= i < |ns| ==> Scalar(ns[i])) && b == EncodeAll(ns)
  {
    if Utf8Valid(b) { var ns := ValidIsEncoded(b); }
    if ns: seq<nat> :| (forall i :: 0 <= i < |ns| ==> Scalar(ns[i])) && b == EncodeAll(ns) { EncodedIsValid(ns); }
  }
}
