/** The SQL text dump of a table: one INSERT per row, every value as a SQLite literal. Text and blobs are given by
    their bytes. */
module SqlDump {
  import opened Decimal
  import opened Joining
  import opened Options
  import opened Scanning

  /** Go strings and byte slices: every character is one byte. */
  type Bytes = s: string | forall i :: 0 <= i < |s| ==> s[i] as int < 256

  datatype Value = Null | Int(n: int) | Bool(b: bool) | Text(text: Bytes) | Blob(bytes: Bytes)

  type Row = seq<Value>

  // ---------- utf8.Valid ----------

  predicate InRange(c: char, lo: nat, hi: nat) {
    lo <= c as int <= hi
  }

  /** The length of the well-formed UTF-8 sequence a text starts with, or 0. */
  function RuneLength(b: Bytes): (n: nat)
    ensures n <= |b|
  {
    if b == "" then 0
    else if b[0] as int < 0x80 then 1
    else if |b| >= 2 && InRange(b[0], 0xC2, 0xDF) && InRange(b[1], 0x80, 0xBF) then 2
    else if |b| >= 3 && InRange(b[0], 0xE0, 0xEF) && InRange(b[2], 0x80, 0xBF)
         && InRange(b[1], if b[0] as int == 0xE0 then 0xA0 else 0x80, if b[0] as int == 0xED then 0x9F else 0xBF) then 3
    else if |b| >= 4 && InRange(b[0], 0xF0, 0xF4) && InRange(b[2], 0x80, 0xBF) && InRange(b[3], 0x80, 0xBF)
         && InRange(b[1], if b[0] as int == 0xF0 then 0x90 else 0x80, if b[0] as int == 0xF4 then 0x8F else 0xBF) then 4
    else 0
  }

  predicate Utf8Valid(b: Bytes)
    decreases |b|
  {
    b == "" || (RuneLength(b) > 0 && Utf8Valid(b[RuneLength(b)..]))
  }

  // ---------- printing ----------

  function Doubled(s: string): string {
    if s == "" then "" else (if s[0] == '\'' then "''" else [s[0]]) + Doubled(s[1..])
  }

  function QuoteSQLiteText(s: string): string {
    "'" + Doubled(s) + "'"
  }

  function HexByte(c: char): string
    requires c as int < 256
  {
    [HexDigit(c as int / 16), HexDigit(c as int % 16)]
  }

  function HexText(b: Bytes): string {
    if b == "" then "" else HexByte(b[0]) + HexText(b[1..])
  }

  function Literal(v: Value): string {
    match v
    case Null => "NULL"
    case Int(n) => IntText(n)
    case Bool(b) => if b then "1" else "0"
    case Text(s) => QuoteSQLiteText(s)
    case Blob(b) => if Utf8Valid(b) then QuoteSQLiteText(b) else "X'" + HexText(b) + "'"
  }

  method SqliteLiteral(v: Value) returns (s: string)
    ensures s == Literal(v)
  {
    match v
    case Null => return "NULL";
    case Int(n) => return IntText(n);
    case Bool(b) => if b { return "1"; } else { return "0"; }
    case Text(x) => return QuoteSQLiteText(x);
    case Blob(x) =>
      if Utf8Valid(x) {
        return QuoteSQLiteText(x);
      }
      s := "X'";
      assert x[0..] == x;
      for i := 0 to |x|
        invariant s + HexText(x[i..]) == "X'" + HexText(x)
      {
        assert x[i..][1..] == x[i + 1..];
        s := s + HexByte(x[i]);
      }
      assert x[|x|..] == "" && s + "" == s;
      s := s + "'";
  }

  /** The values behind the opening parenthesis; `first` tells whether no comma comes before. */
  function ValuesText(row: Row, first: bool): string {
    if row == [] then "" else (if first then "" else ",") + Literal(row[0]) + ValuesText(row[1..], false)
  }

  function Prefix(table: string): string {
    "INSERT INTO \"" + table + "\" VALUES("
  }

  function InsertText(table: string, row: Row): string {
    Prefix(table) + ValuesText(row, true) + ");\n"
  }

  function DumpText(table: string, rows: seq<Row>): string {
    if rows == [] then "" else InsertText(table, rows[0]) + DumpText(table, rows[1..])
  }

  lemma ValuesStep(s: string, vals: Row, i: nat)
    requires i < |vals|
    ensures s + ValuesText(vals[i..], i == 0) ==
      (if i > 0 then s + "," else s) + Literal(vals[i]) + ValuesText(vals[i + 1..], false)
  {
    var comma, lit, more := if i == 0 then "" else ",", Literal(vals[i]), ValuesText(vals[i + 1..], false);
    assert vals[i..][1..] == vals[i + 1..];
    assert s + comma == if i > 0 then s + "," else s;
    Reassociate(s, comma + lit, more);
    Reassociate(s, comma, lit);
  }

  method WriteValues(vals: Row) returns (s: string)
    ensures s == ValuesText(vals, true)
  {
    s := "";
    ghost var goal := ValuesText(vals, true);
    assert vals[0..] == vals;
    for i := 0 to |vals|
      invariant s + ValuesText(vals[i..], i == 0) == goal
    {
      ValuesStep(s, vals, i);
      if i > 0 {
        s := s + ",";
      }
      var lit := SqliteLiteral(vals[i]);
      s := s + lit;
    }
    assert vals[|vals|..] == [] && s + "" == s;
  }

  method DumpTableData(table: string, rows: seq<Row>) returns (b: string)
    ensures b == DumpText(table, rows)
  {
    b := "";
    var prefix := "INSERT INTO \"" + table + "\" VALUES(";
    assert rows[0..] == rows;
    ghost var goal := DumpText(table, rows);
    for k := 0 to |rows|
      invariant b + DumpText(table, rows[k..]) == goal
    {
      assert rows[k..][1..] == rows[k + 1..];
      var values := WriteValues(rows[k]);
      b := b + (prefix + values + ");\n");
    }
    assert rows[|rows|..] == [] && b + "" == b;
  }

  // ---------- reading: quote-doubling literals ----------

  /** The inside of a quoted literal (section 5.3 of ISO/IEC 9075-2): a doubled quote stands for one. */
  function ReadQuoted(s: string): Parsed<string> {
    if s == "" then Fail
    else if s[0] != '\'' then
      match ReadQuoted(s[1..])
      case Fail => Fail
      case Got(x, rest) => Got([s[0]] + x, rest)
    else if |s| > 1 && s[1] == '\'' then
      match ReadQuoted(s[2..])
      case Fail => Fail
      case Got(x, rest) => Got("'" + x, rest)
    else Got("", s[1..])
  }

  function ReadHex(s: string): (r: Parsed<string>)
    ensures r.Got? ==> forall i :: 0 <= i < |r.value| ==> r.value[i] as int < 256
  {
    if s == "" then Fail
    else if s[0] == '\'' then Got("", s[1..])
    else if |s| > 1 && HexValue(s[0]) >= 0 && HexValue(s[1]) >= 0 then
      match ReadHex(s[2..])
      case Fail => Fail
      case Got(x, rest) => Got([(HexValue(s[0]) * 16 + HexValue(s[1])) as char] + x, rest)
    else Fail
  }

  /** The length of the signed digits a text starts with. */
  function NumberLength(s: string): (n: nat)
    ensures n <= |s|
  {
    if s != "" && s[0] == '-' then 1 + DigitsLength(s[1..]) else DigitsLength(s)
  }

  function DigitsLength(s: string): (n: nat)
    ensures n <= |s|
  {
    if s == "" || !IsDigit(s[0]) then 0 else 1 + DigitsLength(s[1..])
  }

  predicate AllBytes(s: string) {
    forall i :: 0 <= i < |s| ==> s[i] as int < 256
  }

  function ReadLiteral(s: string): Parsed<Value> {
    if |s| >= 4 && s[..4] == "NULL" then Got(Null, s[4..])
    else if |s| >= 2 && s[..2] == "X'" then
      match ReadHex(s[2..])
      case Fail => Fail
      case Got(x, rest) => Got(Blob(x), rest)
    else if s != "" && s[0] == '\'' then
      match ReadQuoted(s[1..])
      case Fail => Fail
      case Got(x, rest) => if AllBytes(x) then Got(Text(x), rest) else Fail
    else
      match IntValue(s[..NumberLength(s)])
      case None => Fail
      case Some(n) => Got(Int(n), s[NumberLength(s)..])
  }

  /** The rest of a value list, up to and with the closing parenthesis. */
  function ReadMore(s: string): Parsed<Row>
    decreases |s|
  {
    if s == "" then Fail
    else if s[0] == ')' then Got([], s[1..])
    else if s[0] == ',' then
      match ReadLiteral(s[1..])
      case Fail => Fail
      case Got(v, rest) =>
        if |rest| >= |s| then Fail else
          match ReadMore(rest)
          case Fail => Fail
          case Got(row, rest') => Got([v] + row, rest')
    else Fail
  }

  function ReadValues(s: string): Parsed<Row> {
    if s != "" && s[0] == ')' then Got([], s[1..])
    else ReadMore("," + s)
  }

  /** The length of a text up to its first double quote. */
  function NameEnd(s: string): (n: nat)
    ensures n <= |s|
  {
    if s == "" || s[0] == '"' then 0 else 1 + NameEnd(s[1..])
  }

  const OPENING := "INSERT INTO \""
  const MIDDLE := "\" VALUES("
  const CLOSING := ";\n"

  datatype Insert = Insert(table: string, row: Row)

  function ReadInsert(s: string): (r: Parsed<Insert>) {
    if !(OPENING <= s) then Fail else
      var t := s[|OPENING|..];
      var n := NameEnd(t);
      if !(MIDDLE <= t[n..]) then Fail else
        match ReadValues(t[n + |MIDDLE|..])
        case Fail => Fail
        case Got(row, rest) => if CLOSING <= rest then Got(Insert(t[..n], row), rest[|CLOSING|..]) else Fail
  }

  /** Every statement of a script; None when some text is not an INSERT. */
  function ReadScript(s: string): Option<seq<Insert>>
    decreases |s|
  {
    if s == "" then Some([]) else
      match ReadInsert(s)
      case Fail => None
      case Got(ins, rest) =>
        if |rest| >= |s| then None else
          match ReadScript(rest)
          case None => None
          case Some(more) => Some([ins] + more)
  }

  // ---------- the round trip ----------

  /** What comes back: booleans as numbers, blobs that are UTF-8 as text. */
  function Restored(v: Value): Value {
    match v
    case Bool(b) => Int(if b then 1 else 0)
    case Blob(b) => if Utf8Valid(b) then Text(b) else v
    case _ => v
  }

  function RestoredRow(row: Row): (r: Row)
    ensures |r| == |row|
  {
    seq(|row|, i requires 0 <= i < |row| => Restored(row[i]))
  }

  /** What may follow a literal. */
  predicate Ends(rest: string) {
    rest != "" && (rest[0] == ',' || rest[0] == ')')
  }

  lemma {:induction false} QuotedRoundTrip(s: string, rest: string)
    requires rest == "" || rest[0] != '\''
    ensures ReadQuoted(Doubled(s) + ("'" + rest)) == Got(s, rest)
  {
    var t := Doubled(s) + ("'" + rest);
    if s == "" {
      assert t == "'" + rest && t[1..] == rest;
    } else {
      var more := Doubled(s[1..]) + ("'" + rest);
      QuotedRoundTrip(s[1..], rest);
      if s[0] == '\'' {
        assert t == "''" + more && t[2..] == more;
      } else {
        assert t == [s[0]] + more && t[1..] == more;
      }
      assert s == [s[0]] + s[1..];
    }
  }

  lemma HexByteRoundTrip(c: char)
    requires c as int < 256
    ensures var h := HexByte(c);
      |h| == 2 && h[0] != '\'' && HexValue(h[0]) >= 0 && HexValue(h[1]) >= 0
      && HexValue(h[0]) * 16 + HexValue(h[1]) == c as int
  {
    HexDigitRoundTrip(c as int / 16);
    HexDigitRoundTrip(c as int % 16);
  }

  lemma ReadHexStep(h: string, c: char, more: string, x: string, rest: string)
    requires |h| == 2 && h[0] != '\'' && HexValue(h[0]) >= 0 && HexValue(h[1]) >= 0 && c as int < 256
    requires HexValue(h[0]) * 16 + HexValue(h[1]) == c as int && ReadHex(more) == Got(x, rest)
    ensures ReadHex(h + more) == Got([c] + x, rest)
  {
    assert (h + more)[2..] == more && (h + more)[0] == h[0] && (h + more)[1] == h[1];
  }

  lemma {:induction false} HexRoundTrip(b: Bytes, rest: string)
    ensures ReadHex(HexText(b) + ("'" + rest)) == Got(b, rest)
  {
    var tail := "'" + rest;
    if b == "" {
      assert HexText(b) + tail == tail && tail[1..] == rest;
    } else {
      HexRoundTrip(b[1..], rest);
      HexByteRoundTrip(b[0]);
      ReadHexStep(HexByte(b[0]), b[0], HexText(b[1..]) + tail, b[1..], rest);
      Reassociate(HexByte(b[0]), HexText(b[1..]), tail);
      assert b == [b[0]] + b[1..];
    }
  }

  lemma {:induction false} DigitsLengthAll(d: string, rest: string)
    requires AllDigits(d) && (rest == "" || !IsDigit(rest[0]))
    ensures DigitsLength(d + rest) == |d|
  {
    if d == "" {
      assert d + rest == rest;
    } else {
      assert (d + rest)[1..] == d[1..] + rest;
      DigitsLengthAll(d[1..], rest);
    }
  }

  lemma NumberEnds(n: int, rest: string)
    requires Ends(rest)
    ensures NumberLength(IntText(n) + rest) == |IntText(n)|
  {
    var d := NatText(if n < 0 then -n else n);
    DigitsLengthAll(d, rest);
    if n < 0 {
      assert (IntText(n) + rest)[1..] == d + rest;
    } else {
      assert (IntText(n) + rest)[0] == d[0];
    }
  }

  lemma NumberRoundTrip(n: int, rest: string)
    requires Ends(rest)
    ensures ReadLiteral(IntText(n) + rest) == Got(Int(n), rest)
  {
    var s := IntText(n) + rest;
    NumberEnds(n, rest);
    assert s[..|IntText(n)|] == IntText(n) && s[|IntText(n)|..] == rest;
    IntRoundTrip(n);
    IntTextChars(n);
    assert s[0] == IntText(n)[0];
    NotSpelled(s);
  }

  /** Text that begins with a digit or a minus begins no other literal. */
  lemma NotSpelled(s: string)
    requires s != "" && (IsDigit(s[0]) || s[0] == '-')
    ensures !(|s| >= 4 && s[..4] == "NULL") && !(|s| >= 2 && s[..2] == "X'") && s[0] != '\''
  {
    assert |s| >= 4 ==> s[..4][0] == s[0];
    assert |s| >= 2 ==> s[..2][0] == s[0];
  }

  lemma TextBegins(s: string)
    requires s != "" && s[0] == '\''
    ensures !(|s| >= 4 && s[..4] == "NULL") && !(|s| >= 2 && s[..2] == "X'")
  {
    assert |s| >= 4 ==> s[..4][0] == s[0];
    assert |s| >= 2 ==> s[..2][0] == s[0];
  }

  lemma TextRoundTrip(text: Bytes, rest: string)
    requires Ends(rest)
    ensures ReadLiteral(QuoteSQLiteText(text) + rest) == Got(Text(text), rest)
  {
    var s := QuoteSQLiteText(text) + rest;
    assert s[1..] == Doubled(text) + ("'" + rest) && s[0] == '\'';
    QuotedRoundTrip(text, rest);
    TextBegins(s);
  }

  lemma BlobRoundTrip(b: Bytes, rest: string)
    ensures ReadLiteral("X'" + HexText(b) + "'" + rest) == Got(Blob(b), rest)
  {
    var s := "X'" + HexText(b) + "'" + rest;
    assert s[2..] == HexText(b) + ("'" + rest) && s[..2] == "X'";
    HexRoundTrip(b, rest);
    assert |s| >= 4 ==> s[..4][0] == 'X';
  }

  /** Whatever the value holds, its literal reads back as the value it restores to, and nothing more is read. */
  lemma LiteralRoundTrip(v: Value, rest: string)
    requires Ends(rest)
    ensures ReadLiteral(Literal(v) + rest) == Got(Restored(v), rest)
  {
    match v
    case Null => assert ("NULL" + rest)[..4] == "NULL" && ("NULL" + rest)[4..] == rest;
    case Int(n) => NumberRoundTrip(n, rest);
    case Bool(b) => BoolText(b); NumberRoundTrip(if b then 1 else 0, rest);
    case Text(t) => TextRoundTrip(t, rest);
    case Blob(b) => if Utf8Valid(b) { TextRoundTrip(b, rest); } else { BlobRoundTrip(b, rest); }
  }

  lemma BoolText(b: bool)
    ensures Literal(Bool(b)) == IntText(if b then 1 else 0)
  {
    assert NatText(0) == "0" && NatText(1) == "1";
  }

  lemma ReadMoreStep(lit: string, v: Value, more: string, row: Row, rest: string)
    requires lit != "" && ReadLiteral(lit + more) == Got(v, more) && ReadMore(more) == Got(row, rest)
    ensures ReadMore("," + (lit + more)) == Got([v] + row, rest)
  {
    assert ("," + (lit + more))[1..] == lit + more;
  }

  lemma LiteralBegins(v: Value)
    ensures Literal(v) != "" && Literal(v)[0] != ')'
  {
    if v.Int? { IntTextChars(v.n); }
  }

  lemma ValuesCut(row: Row, tail: string)
    requires row != []
    ensures ValuesText(row, false) + tail == "," + (Literal(row[0]) + (ValuesText(row[1..], false) + tail))
  {
    var lit, more := Literal(row[0]), ValuesText(row[1..], false);
    Reassociate("," + lit, more, tail);
    Reassociate(",", lit, more + tail);
  }

  lemma ValuesEnd(row: Row, rest: string)
    ensures Ends(ValuesText(row, false) + (")" + rest))
  {
    if row != [] { ValuesCut(row, ")" + rest); }
  }

  lemma RestoredFront(row: Row)
    requires row != []
    ensures RestoredRow(row) == [Restored(row[0])] + RestoredRow(row[1..])
  {
  }

  /** One value in front of those that already read back. */
  lemma OneValueMore(row: Row, tail: string, rest: string)
    requires row != [] && tail == ")" + rest
    requires ReadMore(ValuesText(row[1..], false) + tail) == Got(RestoredRow(row[1..]), rest)
    ensures ReadMore(ValuesText(row, false) + tail) == Got(RestoredRow(row), rest)
  {
    var more := ValuesText(row[1..], false) + tail;
    ValuesCut(row, tail);
    ValuesEnd(row[1..], rest);
    LiteralRoundTrip(row[0], more);
    LiteralBegins(row[0]);
    ReadMoreStep(Literal(row[0]), Restored(row[0]), more, RestoredRow(row[1..]), rest);
    RestoredFront(row);
  }

  lemma {:induction false} MoreRoundTrip(row: Row, rest: string)
    ensures ReadMore(ValuesText(row, false) + (")" + rest)) == Got(RestoredRow(row), rest)
  {
    var tail := ")" + rest;
    if row == [] {
      assert ValuesText(row, false) + tail == tail && tail[1..] == rest && RestoredRow(row) == [];
    } else {
      MoreRoundTrip(row[1..], rest);
      OneValueMore(row, tail, rest);
    }
  }

  lemma FirstValue(row: Row)
    requires row != []
    ensures ValuesText(row, true) == Literal(row[0]) + ValuesText(row[1..], false)
    ensures ValuesText(row, false) == "," + Literal(row[0]) + ValuesText(row[1..], false)
  {
    assert "" + Literal(row[0]) == Literal(row[0]);
  }

  lemma CommaInFront(row: Row, tail: string)
    requires row != []
    ensures "," + (ValuesText(row, true) + tail) == ValuesText(row, false) + tail
    ensures ValuesText(row, true) != "" && ValuesText(row, true)[0] != ')'
  {
    var lit, more := Literal(row[0]), ValuesText(row[1..], false);
    FirstValue(row);
    LiteralBegins(row[0]);
    assert (lit + more)[0] == lit[0];
    Reassociate(",", lit + more, tail);
    Reassociate(",", lit, more);
  }

  lemma ReadFirst(values: string)
    requires values != "" && values[0] != ')'
    ensures ReadValues(values) == ReadMore("," + values)
  {}

  lemma ValuesRoundTrip(row: Row, rest: string)
    ensures ReadValues(ValuesText(row, true) + (")" + rest)) == Got(RestoredRow(row), rest)
  {
    var tail := ")" + rest;
    if row == [] {
      assert ValuesText(row, true) + tail == tail && tail[1..] == rest && RestoredRow(row) == [];
    } else {
      CommaInFront(row, tail);
      MoreRoundTrip(row, rest);
      ReadFirst(ValuesText(row, true) + tail);
    }
  }

  lemma {:induction false} NameEndAt(name: string, rest: string)
    requires '"' !in name && rest != "" && rest[0] == '"'
    ensures NameEnd(name + rest) == |name|
  {
    if name == "" {
      assert name + rest == rest;
    } else {
      assert (name + rest)[1..] == name[1..] + rest;
      NameEndAt(name[1..], rest);
    }
  }

  lemma InsertShape(table: string, values: string, rest: string)
    ensures Prefix(table) + values + ");\n" + rest == OPENING + (table + (MIDDLE + (values + (")" + (CLOSING + rest)))))
  {
    var end := CLOSING + rest;
    assert ");\n" + rest == ")" + end;
    Reassociate(Prefix(table) + values, ");\n", rest);
    Reassociate(Prefix(table), values, ")" + end);
    assert Prefix(table) == OPENING + (table + MIDDLE);
    Reassociate(OPENING, table + MIDDLE, values + (")" + end));
    Reassociate(table, MIDDLE, values + (")" + end));
  }

  lemma ReadInsertOf(table: string, values: string, row: Row, rest: string)
    requires '"' !in table && ReadValues(values) == Got(row, CLOSING + rest)
    ensures ReadInsert(OPENING + (table + (MIDDLE + values))) == Got(Insert(table, row), rest)
  {
    var t := table + (MIDDLE + values);
    assert (OPENING + t)[|OPENING|..] == t;
    NameEndAt(table, MIDDLE + values);
    assert t[|table|..] == MIDDLE + values && t[..|table|] == table && t[|table| + |MIDDLE|..] == values;
    assert (CLOSING + rest)[|CLOSING|..] == rest;
  }

  lemma InsertRoundTrip(table: string, row: Row, rest: string)
    requires '"' !in table
    ensures ReadInsert(InsertText(table, row) + rest) == Got(Insert(table, RestoredRow(row)), rest)
  {
    var values := ValuesText(row, true);
    ValuesRoundTrip(row, CLOSING + rest);
    InsertShape(table, values, rest);
    ReadInsertOf(table, values + (")" + (CLOSING + rest)), RestoredRow(row), rest);
  }

  function InsertsOf(table: string, rows: seq<Row>): seq<Insert> {
    seq(|rows|, i requires 0 <= i < |rows| => Insert(table, RestoredRow(rows[i])))
  }

  lemma InsertsStep(table: string, rows: seq<Row>)
    requires rows != []
    ensures InsertsOf(table, rows) == [Insert(table, RestoredRow(rows[0]))] + InsertsOf(table, rows[1..])
  {}

  lemma ReadScriptStep(text: string, ins: Insert, more: string, inserts: seq<Insert>)
    requires text != "" && ReadInsert(text + more) == Got(ins, more) && ReadScript(more) == Some(inserts)
    ensures ReadScript(text + more) == Some([ins] + inserts)
  {}

  /** Reading the dump of a table gives its rows back, in order, whatever commas, quotes, parentheses, newlines or
      statements their text holds. */
  lemma {:induction false} DumpRoundTrip(table: string, rows: seq<Row>)
    requires '"' !in table
    ensures ReadScript(DumpText(table, rows)) == Some(InsertsOf(table, rows))
  {
    if rows == [] {
      assert InsertsOf(table, rows) == [];
    } else {
      var text := InsertText(table, rows[0]);
      assert text != "" by { assert |text| >= |Prefix(table)|; }
      DumpRoundTrip(table, rows[1..]);
      InsertRoundTrip(table, rows[0], DumpText(table, rows[1..]));
      var first, more := Insert(table, RestoredRow(rows[0])), DumpText(table, rows[1..]);
      ReadScriptStep(text, first, more, InsertsOf(table, rows[1..]));
      InsertsStep(table, rows);
    }
  }

  lemma OneRowDump(table: string, row: Row)
    ensures DumpText(table, [row]) == InsertText(table, row)
    ensures InsertsOf(table, [row]) == [Insert(table, RestoredRow(row))]
  {
    assert DumpText(table, []) == "" && InsertText(table, row) + "" == InsertText(table, row);
  }

  lemma RestoredExactly(row: Row)
    ensures RestoredRow(row) == row <==>
      (forall i :: 0 <= i < |row| ==> !row[i].Bool? && !(row[i].Blob? && Utf8Valid(row[i].bytes)))
  {
    assert RestoredRow(row) == row <==> forall i :: 0 <= i < |row| ==> Restored(row[i]) == row[i];
  }

  /** A row comes back as it was exactly when it holds no boolean and no blob that is UTF-8. */
  lemma RowComesBackExactly(table: string, row: Row)
    requires '"' !in table
    ensures ReadScript(InsertText(table, row)) == Some([Insert(table, row)]) <==>
      (forall i :: 0 <= i < |row| ==> !row[i].Bool? && !(row[i].Blob? && Utf8Valid(row[i].bytes)))
  {
    DumpRoundTrip(table, [row]);
    OneRowDump(table, row);
    RestoredExactly(row);
  }
}
