/** JSON values as the hot-reload diff decodes them, their canonical text, and a reader for it. */
module Json {
  import opened Lexicographic
  import opened Scanning

  /** What encoding/json builds when decoding into `any` with UseNumber: a number keeps its digits,
      an object forgets the order of its keys and keeps the last value of a repeated one. */
  datatype Json =
    | Null
    | Bool(b: bool)
    | Num(digits: string)
    | Str(s: string)
    | Arr(items: seq<Json>)
    | Obj(fields: map<string, Json>)

  // ---------- numbers (section 6 of RFC 8259) ----------

  /** Number of leading digits. */
  function DigitRun(s: string): (n: nat)
    ensures n <= |s|
    ensures forall i :: 0 <= i < n ==> IsDigit(s[i])
    ensures n < |s| ==> !IsDigit(s[n])
  {
    if s != "" && IsDigit(s[0]) then 1 + DigitRun(s[1..]) else 0
  }

  datatype Extent = Bad | Upto(end: nat)

  function IntEnd(s: string): (r: Extent)
    ensures r.Upto? ==> 0 < r.end <= |s|
  {
    var i := if s != "" && s[0] == '-' then 1 else 0;
    if i == |s| || !IsDigit(s[i]) then Bad
    else if s[i] == '0' then Upto(i + 1)
    else Upto(i + DigitRun(s[i..]))
  }

  function FracEnd(s: string, i: nat): (r: Extent)
    requires i <= |s|
    ensures r.Upto? ==> i <= r.end <= |s|
  {
    if i == |s| || s[i] != '.' then Upto(i)
    else
      var d := DigitRun(s[i + 1..]);
      if d == 0 then Bad else Upto(i + 1 + d)
  }

  function ExpEnd(s: string, i: nat): (r: Extent)
    requires i <= |s|
    ensures r.Upto? ==> i <= r.end <= |s|
  {
    if i == |s| || (s[i] != 'e' && s[i] != 'E') then Upto(i)
    else
      var j := if i + 1 < |s| && (s[i + 1] == '+' || s[i + 1] == '-') then i + 2 else i + 1;
      var d := DigitRun(s[j..]);
      if d == 0 then Bad else Upto(j + d)
  }

  /** Where the number at the head of `s` ends. */
  function NumberEnd(s: string): (r: Extent)
    ensures r.Upto? ==> 0 < r.end <= |s|
  {
    match IntEnd(s)
    case Bad => Bad
    case Upto(i) =>
      match FracEnd(s, i)
      case Bad => Bad
      case Upto(j) => ExpEnd(s, j)
  }

  predicate ValidNumber(d: string) {
    NumberEnd(d) == Upto(|d|)
  }

  /** Text that may follow a complete value: the end, white space, or what separates and closes. */
  predicate Delimited(rest: string) {
    rest == "" || rest[0] in " \t\r\n,]}"
  }

  lemma {:induction false} DigitRunStops(d: string, rest: string)
    requires rest == "" || !IsDigit(rest[0])
    ensures DigitRun(d + rest) == DigitRun(d)
  {
    if d == "" {
      assert d + rest == rest;
    } else {
      assert (d + rest)[1..] == d[1..] + rest;
      DigitRunStops(d[1..], rest);
    }
  }

  lemma {:induction false} DigitRunCut(s: string, n: nat)
    requires DigitRun(s) <= n <= |s|
    ensures DigitRun(s[..n]) == DigitRun(s)
  {
    if s != "" && IsDigit(s[0]) {
      assert s[..n][1..] == s[1..][..n - 1];
      DigitRunCut(s[1..], n - 1);
    }
  }

  lemma RunStops(d: string, rest: string, i: nat)
    requires i <= |d| && Delimited(rest)
    ensures DigitRun((d + rest)[i..]) == DigitRun(d[i..])
  {
    assert (d + rest)[i..] == d[i..] + rest;
    DigitRunStops(d[i..], rest);
  }

  lemma IntStops(d: string, rest: string)
    requires IntEnd(d).Upto? && Delimited(rest)
    ensures IntEnd(d + rest) == IntEnd(d)
  {
    RunStops(d, rest, 0);
    RunStops(d, rest, 1);
  }

  lemma FracStops(d: string, rest: string, i: nat)
    requires i <= |d| && FracEnd(d, i).Upto? && Delimited(rest)
    ensures FracEnd(d + rest, i) == FracEnd(d, i)
  {
    if i < |d| { RunStops(d, rest, i + 1); }
  }

  lemma ExpStops(d: string, rest: string, i: nat)
    requires i <= |d| && ExpEnd(d, i).Upto? && Delimited(rest)
    ensures ExpEnd(d + rest, i) == ExpEnd(d, i)
  {
    var s := d + rest;
    if i < |d| {
      assert s[i] == d[i];
      if d[i] == 'e' || d[i] == 'E' {
        assert i + 1 < |d| && s[i + 1] == d[i + 1];
        RunStops(d, rest, if d[i + 1] == '+' || d[i + 1] == '-' then i + 2 else i + 1);
      }
    }
  }

  lemma NumberStops(d: string, rest: string)
    requires ValidNumber(d) && Delimited(rest)
    ensures NumberEnd(d + rest) == Upto(|d|)
  {
    IntStops(d, rest);
    FracStops(d, rest, IntEnd(d).end);
    ExpStops(d, rest, FracEnd(d, IntEnd(d).end).end);
  }

  lemma RunCut(s: string, k: nat, n: nat)
    requires k <= n <= |s| && k + DigitRun(s[k..]) <= n
    ensures DigitRun(s[..n][k..]) == DigitRun(s[k..])
  {
    assert s[..n][k..] == s[k..][..n - k];
    DigitRunCut(s[k..], n - k);
  }

  lemma IntCut(s: string, n: nat)
    requires IntEnd(s).Upto? && IntEnd(s).end <= n <= |s|
    ensures IntEnd(s[..n]) == IntEnd(s)
  {
    var i := if s[0] == '-' then 1 else 0;
    if s[i] != '0' { RunCut(s, i, n); }
  }

  lemma FracCut(s: string, i: nat, n: nat)
    requires i <= |s| && FracEnd(s, i).Upto? && FracEnd(s, i).end <= n <= |s|
    ensures FracEnd(s[..n], i) == FracEnd(s, i)
  {
    if i < n && s[i] == '.' { RunCut(s, i + 1, n); }
  }

  lemma ExpCut(s: string, i: nat, n: nat)
    requires i <= |s| && ExpEnd(s, i).Upto? && ExpEnd(s, i).end == n
    ensures ExpEnd(s[..n], i) == Upto(n)
  {
    if i < n {
      var j := if i + 1 < |s| && (s[i + 1] == '+' || s[i + 1] == '-') then i + 2 else i + 1;
      RunCut(s, j, n);
    }
  }

  lemma NumberCut(s: string)
    requires NumberEnd(s).Upto?
    ensures ValidNumber(s[..NumberEnd(s).end])
  {
    var n := NumberEnd(s).end;
    IntCut(s, n);
    FracCut(s, IntEnd(s).end, n);
    ExpCut(s, FracEnd(s, IntEnd(s).end).end, n);
  }

  // ---------- strings (section 7 of RFC 8259) ----------

  /** The four hex digits at the head of `s`, or -1. */
  function Hex4(s: string): (r: int)
    ensures -1 <= r < 0x10000
  {
    if |s| < 4 then -1 else
      var (a, b, c, d) := (HexValue(s[0]), HexValue(s[1]), HexValue(s[2]), HexValue(s[3]));
      if a < 0 || b < 0 || c < 0 || d < 0 then -1 else ((a * 16 + b) * 16 + c) * 16 + d
  }

  predicate IsSurrogate(u: int) { 0xD800 <= u < 0xE000 }

  const REPLACEMENT: char := '\U{FFFD}'

  /** encoding/json escapes what JSON demands, and also <, >, & and the two line separators. */
  predicate NeedsHex(c: char) {
    c < ' ' || c == '<' || c == '>' || c == '&' || c == '\U{2028}' || c == '\U{2029}'
  }

  function HexEscape(c: char): string
    requires c as int < 0x10000
  {
    var n := c as int;
    ['\\', 'u', HexDigit(n / 4096), HexDigit(n / 256 % 16), HexDigit(n / 16 % 16), HexDigit(n % 16)]
  }

  function Escape(c: char): string {
    if c == '"' then "\\\"" else
    if c == '\\' then "\\\\" else
    if c == 8 as char then "\\b" else
    if c == 12 as char then "\\f" else
    if c == '\n' then "\\n" else
    if c == '\r' then "\\r" else
    if c == '\t' then "\\t" else
    if NeedsHex(c) then HexEscape(c) else [c]
  }

  function EscapeAll(s: string): string {
    if s == "" then "" else Escape(s[0]) + EscapeAll(s[1..])
  }

  function Quote(s: string): string {
    "\"" + EscapeAll(s) + "\""
  }

  /** One \uXXXX escape, `s` starting after the u: a surrogate pair makes one character, a lone
      surrogate becomes the replacement character. */
  function ReadUnicode(s: string): (r: Parsed<char>)
    ensures r.Got? ==> |r.rest| < |s|
  {
    var u := Hex4(s);
    if u < 0 then Fail
    else if !IsSurrogate(u) then Got(u as char, s[4..])
    else
      var low := if |s| >= 6 && s[4] == '\\' && s[5] == 'u' then Hex4(s[6..]) else -1;
      if u < 0xDC00 && 0xDC00 <= low < 0xE000
      then Got((0x10000 + (u - 0xD800) * 0x400 + (low - 0xDC00)) as char, s[10..])
      else Got(REPLACEMENT, s[4..])
  }

  function ReadChar(s: string): (r: Parsed<char>)
    requires s != ""
    ensures r.Got? ==> |r.rest| < |s|
  {
    if s[0] < ' ' then Fail
    else if s[0] != '\\' then Got(s[0], s[1..])
    else if |s| == 1 then Fail
    else match s[1]
      case '"' => Got('"', s[2..])
      case '\\' => Got('\\', s[2..])
      case '/' => Got('/', s[2..])
      case 'b' => Got(8 as char, s[2..])
      case 'f' => Got(12 as char, s[2..])
      case 'n' => Got('\n', s[2..])
      case 'r' => Got('\r', s[2..])
      case 't' => Got('\t', s[2..])
      case 'u' => ReadUnicode(s[2..])
      case _ => Fail
  }

  /** The characters up to the closing quote. */
  function ReadString(s: string): (r: Parsed<string>)
    ensures r.Got? ==> |r.rest| < |s|
  {
    if s == "" then Fail
    else if s[0] == '"' then Got("", s[1..])
    else match ReadChar(s)
      case Fail => Fail
      case Got(c, rest) =>
        match ReadString(rest)
        case Fail => Fail
        case Got(cs, rest') => Got([c] + cs, rest')
  }

  lemma HexDigitsOf(n: nat)
    requires n < 0x10000
    ensures n / 4096 < 16
    ensures ((n / 4096 * 16 + n / 256 % 16) * 16 + n / 16 % 16) * 16 + n % 16 == n
  {
  }

  lemma Hex4RoundTrip(c: char, rest: string)
    requires c as int < 0x10000
    ensures Hex4(HexEscape(c)[2..] + rest) == c as int
  {
    var n := c as int;
    HexDigitsOf(n);
    HexDigitRoundTrip(n / 4096);
    HexDigitRoundTrip(n / 256 % 16);
    HexDigitRoundTrip(n / 16 % 16);
    HexDigitRoundTrip(n % 16);
    var s := HexEscape(c)[2..] + rest;
    assert s[0] == HexDigit(n / 4096) && s[1] == HexDigit(n / 256 % 16);
    assert s[2] == HexDigit(n / 16 % 16) && s[3] == HexDigit(n % 16);
  }

  lemma HexRoundTrip(c: char, rest: string)
    requires c as int < 0x10000
    ensures ReadChar(HexEscape(c) + rest) == Got(c, rest)
  {
    var h := HexEscape(c);
    var s := h[2..] + rest;
    Hex4RoundTrip(c, rest);
    assert s[4..] == rest;
    assert (h + rest)[2..] == s && (h + rest)[0] == '\\' && (h + rest)[1] == 'u';
  }

  lemma EscapeRoundTrip(c: char, rest: string)
    ensures ReadChar(Escape(c) + rest) == Got(c, rest)
    ensures Escape(c)[0] != '"'
  {
    var e := Escape(c);
    assert (e + rest)[0] == e[0];
    if |e| == 1 {
      assert (e + rest)[1..] == rest;
    } else if |e| == 2 {
      assert (e + rest)[1] == e[1] && (e + rest)[2..] == rest;
    } else {
      HexRoundTrip(c, rest);
    }
  }

  lemma EscapeAllFront(s: string, rest: string)
    requires s != ""
    ensures EscapeAll(s) + "\"" + rest == Escape(s[0]) + (EscapeAll(s[1..]) + "\"" + rest)
  {
  }

  lemma ReadStringStep(c: char, tail: string, cs: string, rest: string)
    requires ReadString(tail) == Got(cs, rest)
    ensures ReadString(Escape(c) + tail) == Got([c] + cs, rest)
  {
    EscapeRoundTrip(c, tail);
    assert (Escape(c) + tail)[0] == Escape(c)[0];
  }

  lemma {:induction false} QuoteRoundTrip(s: string, rest: string)
    ensures ReadString(EscapeAll(s) + "\"" + rest) == Got(s, rest)
  {
    if s == "" {
      var t := EscapeAll(s) + "\"" + rest;
      assert t[0] == '"' && t[1..] == rest;
    } else {
      QuoteRoundTrip(s[1..], rest);
      ReadStringStep(s[0], EscapeAll(s[1..]) + "\"" + rest, s[1..], rest);
      EscapeAllFront(s, rest);
      assert s == [s[0]] + s[1..];
    }
  }

  // ---------- values ----------

  /** Every number in the value is a JSON number; the reader yields nothing else. */
  predicate Valid(v: Json) {
    match v
    case Num(d) => ValidNumber(d)
    case Arr(items) => forall i :: 0 <= i < |items| ==> Valid(items[i])
    case Obj(m) => forall k :: k in m ==> Valid(m[k])
    case _ => true
  }

  /** json.Marshal of a decoded value: sorted keys, no insignificant whitespace, the digits as read. */
  function Print(v: Json): string
    decreases v
  {
    match v
    case Null => "null"
    case Bool(b) => if b then "true" else "false"
    case Num(d) => d
    case Str(s) => Quote(s)
    case Arr(items) => "[" + (if items == [] then "]" else PrintItems(v, items))
    case Obj(m) => "{" + (if m == map[] then "}" else PrintMembers(v, m, SortedKeys(m.Keys)))
  }

  function PrintItems(ghost owner: Json, items: seq<Json>): string
    requires items != [] && forall i :: 0 <= i < |items| ==> items[i] < owner
    decreases owner, |items|
  {
    Print(items[0]) + (if |items| == 1 then "]" else "," + PrintItems(owner, items[1..]))
  }

  function PrintMembers(ghost owner: Json, m: map<string, Json>, ks: seq<string>): string
    requires ks != [] && owner == Obj(m) && forall i :: 0 <= i < |ks| ==> ks[i] in m
    decreases owner, |ks|
  {
    Quote(ks[0]) + ":" + Print(m[ks[0]]) + (if |ks| == 1 then "}" else "," + PrintMembers(owner, m, ks[1..]))
  }

  predicate IsSpace(c: char) { c == ' ' || c == '\t' || c == '\r' || c == '\n' }

  function SkipSpace(s: string): (r: string)
    ensures |r| <= |s|
    ensures r == "" || !IsSpace(r[0])
  {
    if s != "" && IsSpace(s[0]) then SkipSpace(s[1..]) else s
  }

  /** A string, a literal name or a number. */
  function ReadAtom(t: string): (r: Parsed<Json>)
    requires t != ""
    ensures r.Got? ==> |r.rest| < |t| && Valid(r.value)
  {
    if t[0] == '"' then
      match ReadString(t[1..])
      case Fail => Fail
      case Got(str, rest) => Got(Str(str), rest)
    else if "true" <= t then Got(Bool(true), t[4..])
    else if "false" <= t then Got(Bool(false), t[5..])
    else if "null" <= t then Got(Null, t[4..])
    else
      match NumberEnd(t)
      case Bad => Fail
      case Upto(n) => NumberCut(t); Got(Num(t[..n]), t[n..])
  }

  /** Reads one value from the head of the text, whatever follows it. */
  function Read(s: string): (r: Parsed<Json>)
    ensures r.Got? ==> |r.rest| < |s| && Valid(r.value)
    decreases |s|, 1
  {
    var t := SkipSpace(s);
    if t == "" then Fail
    else if t[0] == '{' then ReadObject(t[1..])
    else if t[0] == '[' then ReadArray(t[1..])
    else ReadAtom(t)
  }

  function ReadArray(s: string): (r: Parsed<Json>)
    ensures r.Got? ==> |r.rest| < |s| && Valid(r.value)
    decreases |s|, 3
  {
    var t := SkipSpace(s);
    if t != "" && t[0] == ']' then Got(Arr([]), t[1..])
    else
      match ReadItems(t)
      case Fail => Fail
      case Got(items, rest) => Got(Arr(items), rest)
  }

  function ReadObject(s: string): (r: Parsed<Json>)
    ensures r.Got? ==> |r.rest| < |s| && Valid(r.value)
    decreases |s|, 3
  {
    var t := SkipSpace(s);
    if t != "" && t[0] == '}' then Got(Obj(map[]), t[1..])
    else
      match ReadMembers(t, map[])
      case Fail => Fail
      case Got(m, rest) => Got(Obj(m), rest)
  }

  function ReadItems(s: string): (r: Parsed<seq<Json>>)
    ensures r.Got? ==> |r.rest| < |s| && forall i :: 0 <= i < |r.value| ==> Valid(r.value[i])
    decreases |s|, 2
  {
    match Read(s)
    case Fail => Fail
    case Got(v, rest) =>
      var t := SkipSpace(rest);
      if t != "" && t[0] == ']' then Got([v], t[1..])
      else if t != "" && t[0] == ',' then
        match ReadItems(t[1..])
        case Fail => Fail
        case Got(vs, rest') => Got([v] + vs, rest')
      else Fail
  }

  function ReadMembers(s: string, sofar: map<string, Json>): (r: Parsed<map<string, Json>>)
    requires forall k :: k in sofar ==> Valid(sofar[k])
    ensures r.Got? ==> |r.rest| < |s| && forall k :: k in r.value ==> Valid(r.value[k])
    decreases |s|, 2
  {
    var t := SkipSpace(s);
    if t == "" || t[0] != '"' then Fail
    else
      match ReadString(t[1..])
      case Fail => Fail
      case Got(key, rest) =>
        var u := SkipSpace(rest);
        if u == "" || u[0] != ':' then Fail
        else
          match Read(u[1..])
          case Fail => Fail
          case Got(v, rest') =>
            var w := SkipSpace(rest');
            var m := sofar[key := v];
            if w != "" && w[0] == '}' then Got(m, w[1..])
            else if w != "" && w[0] == ',' then ReadMembers(w[1..], m)
            else Fail
  }

  // ---------- reading back the canonical text ----------

  lemma NumberHead(d: string)
    requires NumberEnd(d).Upto?
    ensures d != "" && (d[0] == '-' || IsDigit(d[0]))
  {
    assert IntEnd(d).Upto?;
  }

  lemma PrintHead(v: Json)
    requires Valid(v)
    ensures Print(v) != "" && !IsSpace(Print(v)[0]) && Print(v)[0] !in ",]}"
  {
    match v
    case Num(d) => NumberHead(d);
    case _ =>
  }

  lemma NotAName(t: string)
    requires t != "" && (t[0] == '-' || IsDigit(t[0]))
    ensures !("true" <= t) && !("false" <= t) && !("null" <= t)
  {
    assert "true"[0] == 't' && "false"[0] == 'f' && "null"[0] == 'n';
  }

  lemma ReadAtomNumber(t: string, n: nat)
    requires NumberEnd(t) == Upto(n)
    ensures t != "" && ReadAtom(t) == Got(Num(t[..n]), t[n..])
  {
    NumberHead(t);
    NotAName(t);
  }

  lemma ReadPrintNum(d: string, rest: string)
    requires ValidNumber(d) && Delimited(rest)
    ensures ReadAtom(d + rest) == Got(Num(d), rest)
    ensures d[0] != '{' && d[0] != '['
  {
    NumberHead(d);
    NumberStops(d, rest);
    ReadAtomNumber(d + rest, |d|);
    assert (d + rest)[..|d|] == d && (d + rest)[|d|..] == rest;
  }

  lemma ReadPrintStr(s: string, rest: string)
    ensures ReadAtom(Quote(s) + rest) == Got(Str(s), rest)
  {
    var t := Quote(s) + rest;
    assert t[0] == '"' && t[1..] == EscapeAll(s) + "\"" + rest;
    QuoteRoundTrip(s, rest);
  }

  lemma ReadPrintName(v: Json, rest: string)
    requires v.Null? || v.Bool?
    ensures ReadAtom(Print(v) + rest) == Got(v, rest)
  {
    var t := Print(v) + rest;
    assert t[0] == Print(v)[0] && t[|Print(v)|..] == rest;
  }

  /** The main result: the canonical text reads back to the value it was printed from. */
  lemma {:induction false} ReadPrint(v: Json, rest: string)
    requires Valid(v) && Delimited(rest)
    ensures Read(Print(v) + rest) == Got(v, rest)
    decreases v, 2
  {
    var t := Print(v) + rest;
    PrintHead(v);
    assert t[0] == Print(v)[0] && SkipSpace(t) == t;
    match v
    case Arr(items) => ReadPrintArr(v, rest);
    case Obj(m) => ReadPrintObj(v, rest);
    case Num(d) => ReadPrintNum(d, rest);
    case Str(str) => ReadPrintStr(str, rest);
    case _ => ReadPrintName(v, rest);
  }

  lemma CollectedAll(m: map<string, Json>)
    ensures map[] + Collected(m, SortedKeys(m.Keys)) == m
  {
  }

  lemma OpenText(open: string, body: string, rest: string)
    requires |open| == 1
    ensures (open + body + rest)[1..] == body + rest
  {
  }

  lemma ObjectBody(t: string, m: map<string, Json>, rest: string)
    requires t != "" && t[0] == '"' && ReadMembers(t, map[]) == Got(m, rest)
    ensures ReadObject(t) == Got(Obj(m), rest)
  {
    assert SkipSpace(t) == t;
  }

  lemma ArrayBody(t: string, items: seq<Json>, rest: string)
    requires t != "" && !IsSpace(t[0]) && t[0] != ']' && ReadItems(t) == Got(items, rest)
    ensures ReadArray(t) == Got(Arr(items), rest)
  {
    assert SkipSpace(t) == t;
  }

  lemma ItemsHead(owner: Json, items: seq<Json>)
    requires items != [] && forall i :: 0 <= i < |items| ==> items[i] < owner && Valid(items[i])
    ensures PrintItems(owner, items) != ""
    ensures !IsSpace(PrintItems(owner, items)[0]) && PrintItems(owner, items)[0] != ']'
  {
    PrintHead(items[0]);
    assert PrintItems(owner, items)[0] == Print(items[0])[0];
  }

  lemma {:induction false} ReadPrintArr(v: Json, rest: string)
    requires v.Arr? && Valid(v)
    ensures Print(v)[0] == '[' && ReadArray((Print(v) + rest)[1..]) == Got(v, rest)
    decreases v, 1
  {
    if v.items == [] {
      OpenText("[", "]", rest);
      assert ("]" + rest)[1..] == rest;
    } else {
      var body := PrintItems(v, v.items);
      OpenText("[", body, rest);
      ItemsHead(v, v.items);
      ReadPrintItems(v, v.items, rest);
      assert (body + rest)[0] == body[0];
      ArrayBody(body + rest, v.items, rest);
    }
  }

  lemma {:induction false} ReadPrintObj(v: Json, rest: string)
    requires v.Obj? && Valid(v)
    ensures Print(v)[0] == '{' && ReadObject((Print(v) + rest)[1..]) == Got(v, rest)
    decreases v, 1
  {
    var m := v.fields;
    if m == map[] {
      OpenText("{", "}", rest);
      assert ("}" + rest)[1..] == rest;
    } else {
      var body := PrintMembers(v, m, SortedKeys(m.Keys));
      OpenText("{", body, rest);
      ReadPrintMembers(v, m, SortedKeys(m.Keys), map[], rest);
      CollectedAll(m);
      ObjectBody(body + rest, m, rest);
    }
  }

  lemma ItemsEnd(s: string, v: Json, rest: string)
    requires Read(s) == Got(v, "]" + rest)
    ensures ReadItems(s) == Got([v], rest)
  {
    assert ("]" + rest)[1..] == rest;
  }

  lemma ItemsStep(s: string, v: Json, more: string, vs: seq<Json>, rest: string)
    requires Read(s) == Got(v, "," + more) && ReadItems(more) == Got(vs, rest)
    ensures ReadItems(s) == Got([v] + vs, rest)
  {
    assert ("," + more)[1..] == more;
  }

  lemma Assoc(a: string, b: string, c: string)
    ensures a + b + c == a + (b + c)
  {
  }

  lemma ItemsText(owner: Json, items: seq<Json>, rest: string)
    requires items != [] && forall i :: 0 <= i < |items| ==> items[i] < owner
    ensures PrintItems(owner, items) + rest
         == Print(items[0]) + (if |items| == 1 then "]" + rest else "," + (PrintItems(owner, items[1..]) + rest))
  {
    if |items| == 1 {
      Assoc(Print(items[0]), "]", rest);
    } else {
      Assoc(Print(items[0]), "," + PrintItems(owner, items[1..]), rest);
      Assoc(",", PrintItems(owner, items[1..]), rest);
    }
  }

  lemma ItemsGlue(owner: Json, items: seq<Json>, rest: string)
    requires |items| > 1 && forall i :: 0 <= i < |items| ==> items[i] < owner
    requires ReadItems(PrintItems(owner, items[1..]) + rest) == Got(items[1..], rest)
    requires Read(Print(items[0]) + ("," + (PrintItems(owner, items[1..]) + rest)))
          == Got(items[0], "," + (PrintItems(owner, items[1..]) + rest))
    ensures ReadItems(PrintItems(owner, items) + rest) == Got(items, rest)
  {
    var more := PrintItems(owner, items[1..]) + rest;
    ItemsText(owner, items, rest);
    ItemsStep(Print(items[0]) + ("," + more), items[0], more, items[1..], rest);
    assert items == [items[0]] + items[1..];
  }

  lemma {:induction false} ReadPrintItems(owner: Json, items: seq<Json>, rest: string)
    requires items != [] && forall i :: 0 <= i < |items| ==> items[i] < owner && Valid(items[i])
    ensures ReadItems(PrintItems(owner, items) + rest) == Got(items, rest)
    decreases owner, 0, |items|
  {
    if |items| == 1 {
      ItemsText(owner, items, rest);
      ReadPrint(items[0], "]" + rest);
      ItemsEnd(Print(items[0]) + ("]" + rest), items[0], rest);
      assert items == [items[0]];
    } else {
      ReadPrintItems(owner, items[1..], rest);
      ReadPrint(items[0], "," + (PrintItems(owner, items[1..]) + rest));
      ItemsGlue(owner, items, rest);
    }
  }

  lemma MemberText(q: string, p: string, after: string)
    ensures ("\"" + q + "\"" + ":" + p + after)[1..] == q + "\"" + (":" + (p + after))
    ensures (":" + (p + after))[1..] == p + after
  {
  }

  /** The part of a member that ends before its separator. */
  lemma MemberStart(key: string, p: string, after: string)
    ensures ReadString((Quote(key) + ":" + p + after)[1..]) == Got(key, ":" + (p + after))
  {
    MemberText(EscapeAll(key), p, after);
    QuoteRoundTrip(key, ":" + (p + after));
  }

  /** One member of an object, up to the text behind its value. */
  lemma MemberRead(t: string, key: string, body: string, v: Json, after: string, sofar: map<string, Json>)
    requires forall k :: k in sofar ==> Valid(sofar[k])
    requires t != "" && t[0] == '"' && ReadString(t[1..]) == Got(key, ":" + body) && Read(body) == Got(v, after)
    requires after != "" && !IsSpace(after[0])
    ensures after[0] == '}' ==> ReadMembers(t, sofar) == Got(sofar[key := v], after[1..])
    ensures after[0] == ',' ==> ReadMembers(t, sofar) == ReadMembers(after[1..], sofar[key := v])
  {
    assert SkipSpace(t) == t && SkipSpace(":" + body) == ":" + body && SkipSpace(after) == after;
    assert (":" + body)[1..] == body;
  }

  lemma MembersEnd(key: string, p: string, v: Json, sofar: map<string, Json>, rest: string)
    requires forall k :: k in sofar ==> Valid(sofar[k])
    requires Read(p + ("}" + rest)) == Got(v, "}" + rest)
    ensures ReadMembers(Quote(key) + ":" + p + ("}" + rest), sofar) == Got(sofar[key := v], rest)
  {
    MemberStart(key, p, "}" + rest);
    MemberRead(Quote(key) + ":" + p + ("}" + rest), key, p + ("}" + rest), v, "}" + rest, sofar);
    assert ("}" + rest)[1..] == rest;
  }

  lemma MembersStep(key: string, p: string, v: Json, sofar: map<string, Json>, more: string)
    requires forall k :: k in sofar ==> Valid(sofar[k])
    requires Read(p + ("," + more)) == Got(v, "," + more)
    ensures ReadMembers(Quote(key) + ":" + p + ("," + more), sofar) == ReadMembers(more, sofar[key := v])
  {
    MemberStart(key, p, "," + more);
    MemberRead(Quote(key) + ":" + p + ("," + more), key, p + ("," + more), v, "," + more, sofar);
    assert ("," + more)[1..] == more;
  }

  lemma MembersText(owner: Json, m: map<string, Json>, ks: seq<string>, rest: string)
    requires owner == Obj(m) && ks != [] && forall i :: 0 <= i < |ks| ==> ks[i] in m
    ensures PrintMembers(owner, m, ks) + rest
         == Quote(ks[0]) + ":" + Print(m[ks[0]])
          + (if |ks| == 1 then "}" + rest else "," + (PrintMembers(owner, m, ks[1..]) + rest))
  {
    var head := Quote(ks[0]) + ":" + Print(m[ks[0]]);
    if |ks| == 1 {
      Assoc(head, "}", rest);
    } else {
      Assoc(head, "," + PrintMembers(owner, m, ks[1..]), rest);
      Assoc(",", PrintMembers(owner, m, ks[1..]), rest);
    }
  }

  function Collected(m: map<string, Json>, ks: seq<string>): (r: map<string, Json>)
    requires forall i :: 0 <= i < |ks| ==> ks[i] in m
    ensures r.Keys == (set k | k in ks)
  {
    map k | k in ks :: m[k]
  }

  /** A map grown by one key, seen from another map that already has it. */
  lemma GrownByOne(sofar: map<string, Json>, rest: map<string, Json>, all: map<string, Json>, k: string)
    requires k in all && all.Keys == rest.Keys + {k} && forall x :: x in rest ==> rest[x] == all[x]
    ensures sofar[k := all[k]] + rest == sofar + all
  {
  }

  lemma CollectedStep(m: map<string, Json>, ks: seq<string>, sofar: map<string, Json>)
    requires ks != [] && forall i :: 0 <= i < |ks| ==> ks[i] in m
    ensures sofar[ks[0] := m[ks[0]]] + Collected(m, ks[1..]) == sofar + Collected(m, ks)
    ensures |ks| == 1 ==> sofar[ks[0] := m[ks[0]]] == sofar + Collected(m, ks)
  {
    assert ks == [ks[0]] + ks[1..];
    GrownByOne(sofar, Collected(m, ks[1..]), Collected(m, ks), ks[0]);
  }

  lemma {:induction false} ReadPrintMembers(owner: Json, m: map<string, Json>, ks: seq<string>,
                                            sofar: map<string, Json>, rest: string)
    requires owner == Obj(m) && Valid(owner) && ks != [] && forall i :: 0 <= i < |ks| ==> ks[i] in m
    requires forall k :: k in sofar ==> Valid(sofar[k])
    ensures ReadMembers(PrintMembers(owner, m, ks) + rest, sofar) == Got(sofar + Collected(m, ks), rest)
    decreases owner, 0, |ks|
  {
    var v := m[ks[0]];
    var p := Print(v);
    MembersText(owner, m, ks, rest);
    CollectedStep(m, ks, sofar);
    if |ks| == 1 {
      ReadPrint(v, "}" + rest);
      MembersEnd(ks[0], p, v, sofar, rest);
    } else {
      var more := PrintMembers(owner, m, ks[1..]) + rest;
      ReadPrint(v, "," + more);
      MembersStep(ks[0], p, v, sofar, more);
      ReadPrintMembers(owner, m, ks[1..], sofar[ks[0] := v], rest);
    }
  }

  /** Canonical text tells values apart exactly: equal text if and only if equal values. */
  lemma PrintInjective(v: Json, w: Json)
    requires Valid(v) && Valid(w)
    ensures Print(v) == Print(w) <==> v == w
  {
    ReadPrint(v, "");
    ReadPrint(w, "");
    assert Print(v) + "" == Print(v) && Print(w) + "" == Print(w);
  }
}
