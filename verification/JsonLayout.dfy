/** The many ways to write down one JSON value, all of which read back to it. */
module JsonLayout {
  import opened Json
  import opened Options
  import opened Scanning
  import opened XrayConfig

  /** One character of a string and how it is spelled. */
  datatype Spelling = Spelling(text: string, c: char)

  /** A text, with its white space and its spellings. */
  datatype Doc =
    | Word(v: Json)
    | Quoted(cs: seq<Spelling>)
    | List(gap: string, items: seq<Cell>)
    | Record(gap: string, members: seq<Member>)

  /** A value and the white space around it. */
  datatype Cell = Cell(before: string, doc: Doc, after: string)

  datatype Member = Member(before: string, key: seq<Spelling>, gap: string, cell: Cell)

  predicate Blank(gap: string) {
    forall i :: 0 <= i < |gap| ==> gap[i] in {' ', '\t', '\n', '\r'}
  }

  function Four(text: string): int
    requires |text| == 4
  {
    HexValue(text[0]) * 4096 + HexValue(text[1]) * 256 + HexValue(text[2]) * 16 + HexValue(text[3])
  }

  predicate IsFour(text: string) {
    |text| == 4 && forall i :: 0 <= i < 4 ==> HexValue(text[i]) >= 0
  }

  /** A character stands for itself, or behind a backslash, or by its number, beyond the first plane by two. */
  predicate Spells(s: Spelling) {
    var t := s.text;
    if |t| == 1 then t[0] == s.c && s.c >= ' ' && s.c !in {'"', '\\'}
    else if |t| == 2 then
      t[0] == '\\' && (t[1], s.c) in {('"', '"'), ('\\', '\\'), ('/', '/'), ('b', 8 as char), ('f', 12 as char),
                                      ('n', '\n'), ('r', '\r'), ('t', '\t')}
    else if |t| == 6 then t[..2] == "\\u" && IsFour(t[2..]) && Four(t[2..]) == s.c as int
    else
      && |t| == 12 && t[..2] == "\\u" && IsFour(t[2..6]) && t[6..8] == "\\u" && IsFour(t[8..])
      && 0xD800 <= Four(t[2..6]) < 0xDC00 && 0xDC00 <= Four(t[8..]) < 0xE000
      && s.c as int == 0x10000 + (Four(t[2..6]) - 0xD800) * 0x400 + (Four(t[8..]) - 0xDC00)
  }

  ghost predicate WellSpelled(cs: seq<Spelling>) {
    forall i :: 0 <= i < |cs| ==> Spells(cs[i])
  }

  function Chars(cs: seq<Spelling>): string {
    if cs == [] then "" else cs[0].text + Chars(cs[1..])
  }

  function Spelled(cs: seq<Spelling>): string {
    if cs == [] then "" else [cs[0].c] + Spelled(cs[1..])
  }

  ghost predicate Good(d: Doc) {
    match d
    case Word(v) => (v.Null? || v.Bool? || v.Num?) && Valid(v)
    case Quoted(cs) => WellSpelled(cs)
    case List(gap, items) => Blank(gap) && forall i :: 0 <= i < |items| ==> GoodCell(items[i])
    case Record(gap, members) => Blank(gap) && forall i :: 0 <= i < |members| ==> GoodMember(members[i])
  }

  ghost predicate GoodCell(c: Cell) {
    Blank(c.before) && Good(c.doc) && Blank(c.after)
  }

  ghost predicate GoodMember(m: Member) {
    Blank(m.before) && WellSpelled(m.key) && Blank(m.gap) && GoodCell(m.cell)
  }

  // ---------- the text ----------

  function Text(d: Doc): string
    decreases d, 1
  {
    match d
    case Word(v) => Print(v)
    case Quoted(cs) => "\"" + (Chars(cs) + "\"")
    case List(gap, items) => "[" + if items == [] then gap + "]" else ItemsText(d, items)
    case Record(gap, members) => "{" + if members == [] then gap + "}" else MembersText(d, members)
  }

  function CellText(c: Cell): string
    decreases c, 1
  {
    c.before + (Text(c.doc) + c.after)
  }

  function ItemsText(ghost owner: Doc, items: seq<Cell>): string
    requires items != [] && forall i :: 0 <= i < |items| ==> items[i] < owner
    decreases owner, 0, |items|
  {
    CellText(items[0]) + if |items| == 1 then "]" else "," + ItemsText(owner, items[1..])
  }

  function MemberText(m: Member): string
    decreases m, 1
  {
    m.before + ("\"" + (Chars(m.key) + ("\"" + (m.gap + (":" + CellText(m.cell))))))
  }

  function MembersText(ghost owner: Doc, members: seq<Member>): string
    requires members != [] && forall i :: 0 <= i < |members| ==> members[i] < owner
    decreases owner, 0, |members|
  {
    MemberText(members[0]) + if |members| == 1 then "}" else "," + MembersText(owner, members[1..])
  }

  // ---------- the value ----------

  function Denotes(d: Doc): Json
    decreases d, 1
  {
    match d
    case Word(v) => v
    case Quoted(cs) => Str(Spelled(cs))
    case List(_, items) => Arr(Values(d, items))
    case Record(_, members) => Obj(Fields(d, members, map[]))
  }

  function Values(ghost owner: Doc, items: seq<Cell>): seq<Json>
    requires forall i :: 0 <= i < |items| ==> items[i] < owner
    decreases owner, 0, |items|
  {
    if items == [] then [] else [Denotes(items[0].doc)] + Values(owner, items[1..])
  }

  /** The fields known so far and those of the members; a later one replaces an earlier one of the same name. */
  function Fields(ghost owner: Doc, members: seq<Member>, sofar: map<string, Json>): map<string, Json>
    requires forall i :: 0 <= i < |members| ==> members[i] < owner
    decreases owner, 0, |members|
  {
    if members == [] then sofar else
      Fields(owner, members[1..], sofar[Spelled(members[0].key) := Denotes(members[0].cell.doc)])
  }

  /** The last member of a name is the one that counts. */
  ghost predicate LastOf(members: seq<Member>, name: string, i: nat) {
    && i < |members| && Spelled(members[i].key) == name
    && forall j :: i < j < |members| ==> Spelled(members[j].key) != name
  }

  predicate Same(a: map<string, Json>, b: map<string, Json>, name: string) {
    if name in a then name in b && a[name] == b[name] else name !in b
  }

  lemma {:induction false} FieldsAre(owner: Doc, members: seq<Member>, sofar: map<string, Json>, name: string)
    requires forall i :: 0 <= i < |members| ==> members[i] < owner
    ensures var m := Fields(owner, members, sofar);
      forall i: nat :: LastOf(members, name, i) ==> name in m && m[name] == Denotes(members[i].cell.doc)
    ensures (forall i :: 0 <= i < |members| ==> Spelled(members[i].key) != name) ==>
      Same(Fields(owner, members, sofar), sofar, name)
    decreases |members|
  {
    if members != [] {
      var rest, now := members[1..], sofar[Spelled(members[0].key) := Denotes(members[0].cell.doc)];
      FieldsAre(owner, rest, now, name);
      assert forall j :: 0 <= j < |rest| ==> rest[j] == members[j + 1];
      forall i: nat | LastOf(members, name, i)
        ensures name in Fields(owner, members, sofar)
        ensures Fields(owner, members, sofar)[name] == Denotes(members[i].cell.doc)
      {
        if i > 0 { assert LastOf(rest, name, i - 1); }
      }
    }
  }

  // ---------- white space ----------

  lemma {:induction false} SkipGap(gap: string, s: string)
    requires Blank(gap)
    ensures SkipSpace(gap + s) == SkipSpace(s)
  {
    if gap == "" {
      assert gap + s == s;
    } else {
      assert (gap + s)[0] == gap[0] && (gap + s)[1..] == gap[1..] + s;
      SkipGap(gap[1..], s);
    }
  }

  lemma GapInFront(gap: string, s: string)
    requires Blank(gap)
    ensures Read(gap + s) == Read(s)
  {
    SkipGap(gap, s);
  }

  lemma NoGap(c: char, s: string)
    requires !IsSpace(c)
    ensures SkipSpace([c] + s) == [c] + s && ([c] + s)[1..] == s
  {}

  lemma GapDelimits(gap: string, tail: string)
    requires Blank(gap) && Delimited(tail)
    ensures Delimited(gap + tail)
  {
    if gap == "" { assert gap + tail == tail; } else { assert (gap + tail)[0] == gap[0]; }
  }

  // ---------- strings ----------

  lemma HexIs(text: string, rest: string)
    requires IsFour(text)
    ensures Hex4(text + rest) == Four(text) && (text + rest)[4..] == rest
  {}

  lemma ReadByNumber(s: Spelling, rest: string)
    requires Spells(s) && |s.text| == 6
    ensures ReadChar(s.text + rest) == Got(s.c, rest)
  {
    HexIs(s.text[2..], rest);
    assert (s.text + rest)[2..] == s.text[2..] + rest;
    assert s.text[0] == s.text[..2][0] && s.text[1] == s.text[..2][1];
  }

  /** The two numbers of a pair, behind the first backslash and letter. */
  lemma PairIs(t: string, rest: string)
    requires |t| == 12 && IsFour(t[2..6]) && t[6..8] == "\\u" && IsFour(t[8..])
    ensures var s := t[2..] + rest;
      && Hex4(s) == Four(t[2..6]) && |s| >= 10 && s[4] == '\\' && s[5] == 'u'
      && Hex4(s[6..]) == Four(t[8..]) && s[10..] == rest
  {
    var s := t[2..] + rest;
    HexIs(t[2..6], t[6..] + rest);
    HexIs(t[8..], rest);
    assert s == t[2..6] + (t[6..] + rest) && s[6..] == t[8..] + rest;
    assert t[6] == t[6..8][0] && t[7] == t[6..8][1];
  }

  lemma ReadByTwo(s: Spelling, rest: string)
    requires Spells(s) && |s.text| == 12
    ensures ReadChar(s.text + rest) == Got(s.c, rest)
  {
    var t := s.text;
    assert t[0] == t[..2][0] && t[1] == t[..2][1];
    PairIs(t, rest);
    assert (t + rest)[2..] == t[2..] + rest;
  }

  /** However it is spelled, a character is read as what it is. */
  lemma ReadSpelling(s: Spelling, rest: string)
    requires Spells(s)
    ensures s.text != "" && s.text[0] != '"' && ReadChar(s.text + rest) == Got(s.c, rest)
  {
    if |s.text| == 12 {
      ReadByTwo(s, rest);
      assert s.text[0] == s.text[..2][0];
    } else if |s.text| == 6 {
      ReadByNumber(s, rest);
      assert s.text[0] == s.text[..2][0];
    } else {
      assert (s.text + rest)[|s.text|..] == rest;
    }
  }

  lemma Regroup(a: string, b: string, c: string)
    ensures (a + b) + c == a + (b + c)
  {}

  lemma {:induction false} ReadChars(cs: seq<Spelling>, rest: string)
    requires WellSpelled(cs)
    ensures ReadString(Chars(cs) + ("\"" + rest)) == Got(Spelled(cs), rest)
  {
    if cs == [] {
      assert Chars(cs) + ("\"" + rest) == "\"" + rest && ("\"" + rest)[1..] == rest;
    } else {
      var more := Chars(cs[1..]) + ("\"" + rest);
      ReadChars(cs[1..], rest);
      Regroup(cs[0].text, Chars(cs[1..]), "\"" + rest);
      ReadSpelling(cs[0], more);
      assert (cs[0].text + more)[0] == cs[0].text[0];
    }
  }

  lemma ReadQuoted(cs: seq<Spelling>, rest: string)
    requires WellSpelled(cs)
    ensures Read("\"" + (Chars(cs) + ("\"" + rest))) == Got(Str(Spelled(cs)), rest)
  {
    NoGap('"', Chars(cs) + ("\"" + rest));
    ReadChars(cs, rest);
  }

  // ---------- whole texts ----------

  /** Any text of a value reads back as the value, with nothing taken of what follows. */
  lemma {:induction false} ReadAnyLayout(d: Doc, rest: string)
    requires Good(d) && Delimited(rest)
    ensures Read(Text(d) + rest) == Got(Denotes(d), rest)
    decreases d, 1
  {
    match d
    case Word(v) => ReadPrint(v, rest);
    case Quoted(cs) =>
      ReadQuoted(cs, rest);
      Regroup("\"", Chars(cs) + "\"", rest);
      Regroup(Chars(cs), "\"", rest);
    case List(gap, items) =>
      if items == [] {
        ReadEmpty(gap, rest);
      } else {
        ReadCells(d, items, rest);
        Regroup("[", ItemsText(d, items), rest);
        OpenList(ItemsText(d, items) + rest, Values(d, items), rest);
      }
    case Record(gap, members) =>
      if members == [] {
        ReadEmpty(gap, rest);
      } else {
        ReadRecord(d, members, map[], rest);
        Regroup("{", MembersText(d, members), rest);
        OpenRecord(MembersText(d, members) + rest, Fields(d, members, map[]), rest);
      }
  }

  lemma ReadEmpty(gap: string, rest: string)
    requires Blank(gap)
    ensures Read("[" + (gap + "]") + rest) == Got(Arr([]), rest)
    ensures Read("{" + (gap + "}") + rest) == Got(Obj(map[]), rest)
  {
    EmptyRest(gap, ']', rest);
    EmptyRest(gap, '}', rest);
    EmptyOpen('[', gap, ']', rest);
    EmptyOpen('{', gap, '}', rest);
  }

  lemma EmptyRest(gap: string, close: char, rest: string)
    requires Blank(gap) && !IsSpace(close)
    ensures SkipSpace(gap + ([close] + rest)) == [close] + rest && ([close] + rest)[1..] == rest
  {
    SkipGap(gap, [close] + rest);
    NoGap(close, rest);
  }

  lemma EmptyOpen(open: char, gap: string, close: char, rest: string)
    requires !IsSpace(open)
    ensures SkipSpace([open] + (gap + [close]) + rest) == [open] + (gap + ([close] + rest))
    ensures ([open] + (gap + ([close] + rest)))[1..] == gap + ([close] + rest)
  {
    Regroup([open], gap + [close], rest);
    Regroup(gap, [close], rest);
    NoGap(open, gap + ([close] + rest));
  }

  lemma OpenList(body: string, vs: seq<Json>, rest: string)
    requires ReadItems(body) == Got(vs, rest)
    ensures Read("[" + body) == Got(Arr(vs), rest)
  {
    NoGap('[', body);
    ItemsStart(body, SkipSpace(body));
  }

  /** A closing bracket starts no value. */
  lemma NoBracket(body: string, t: string)
    requires t == SkipSpace(body) && t != "" && t[0] == ']'
    ensures !Read(body).Got?
  {
    assert "true"[0] == 't' && "false"[0] == 'f' && "null"[0] == 'n';
    assert ReadAtom(t) == Fail;
  }

  lemma SameItems(s: string, t: string)
    requires Read(s) == Read(t)
    ensures ReadItems(s) == ReadItems(t)
  {}

  lemma ItemsStart(body: string, t: string)
    requires ReadItems(body).Got? && t == SkipSpace(body)
    ensures t != "" && t[0] != ']' && ReadItems(t) == ReadItems(body)
  {
    assert Read(body).Got? && SkipSpace(t) == t;
    if t != "" && t[0] == ']' {
      NoBracket(body, t);
      assert false;
    }
    SameItems(t, body);
  }

  lemma MembersStart(body: string, t: string)
    requires ReadMembers(body, map[]).Got? && t == SkipSpace(body)
    ensures t != "" && t[0] == '"' && ReadMembers(t, map[]) == ReadMembers(body, map[])
  {
    assert SkipSpace(t) == t;
  }

  lemma OpenRecord(body: string, m: map<string, Json>, rest: string)
    requires ReadMembers(body, map[]) == Got(m, rest)
    ensures Read("{" + body) == Got(Obj(m), rest)
  {
    NoGap('{', body);
    MembersStart(body, SkipSpace(body));
  }

  lemma {:induction false} ReadCell(c: Cell, tail: string)
    requires GoodCell(c) && Delimited(tail)
    ensures Read(CellText(c) + tail) == Got(Denotes(c.doc), c.after + tail)
    decreases c, 1
  {
    Regroup(c.before, Text(c.doc) + c.after, tail);
    Regroup(Text(c.doc), c.after, tail);
    GapInFront(c.before, Text(c.doc) + (c.after + tail));
    GapDelimits(c.after, tail);
    ReadAnyLayout(c.doc, c.after + tail);
  }

  lemma CloseItems(s: string, v: Json, after: string, rest: string)
    requires Blank(after) && Read(s) == Got(v, after + ("]" + rest))
    ensures ReadItems(s) == Got([v], rest)
  {
    EmptyRest(after, ']', rest);
  }

  lemma NextItems(s: string, v: Json, after: string, more: string, vs: seq<Json>, rest: string)
    requires Blank(after) && Read(s) == Got(v, after + ("," + more)) && ReadItems(more) == Got(vs, rest)
    ensures ReadItems(s) == Got([v] + vs, rest)
  {
    EmptyRest(after, ',', more);
  }

  lemma {:induction false} ReadCells(owner: Doc, items: seq<Cell>, rest: string)
    requires items != [] && forall i :: 0 <= i < |items| ==> items[i] < owner && GoodCell(items[i])
    ensures ReadItems(ItemsText(owner, items) + rest) == Got(Values(owner, items), rest)
    decreases owner, 0, |items|
  {
    var c := items[0];
    if |items| == 1 {
      Regroup(CellText(c), "]", rest);
      ReadCell(c, "]" + rest);
      CloseItems(CellText(c) + ("]" + rest), Denotes(c.doc), c.after, rest);
      assert Values(owner, items[1..]) == [] && [Denotes(c.doc)] + [] == [Denotes(c.doc)];
    } else {
      var more := ItemsText(owner, items[1..]) + rest;
      ReadCells(owner, items[1..], rest);
      Regroup(CellText(c), "," + ItemsText(owner, items[1..]), rest);
      Regroup(",", ItemsText(owner, items[1..]), rest);
      ReadCell(c, "," + more);
      NextItems(CellText(c) + ("," + more), Denotes(c.doc), c.after, more, Values(owner, items[1..]), rest);
    }
  }

  /** The text of a member, taken apart. */
  lemma MemberApart(m: Member, tail: string)
    ensures MemberText(m) + tail ==
      m.before + ("\"" + (Chars(m.key) + ("\"" + (m.gap + (":" + (CellText(m.cell) + tail))))))
  {
    var cell := CellText(m.cell);
    Regroup(m.before, "\"" + (Chars(m.key) + ("\"" + (m.gap + (":" + cell)))), tail);
    Regroup("\"", Chars(m.key) + ("\"" + (m.gap + (":" + cell))), tail);
    Regroup(Chars(m.key), "\"" + (m.gap + (":" + cell)), tail);
    Regroup("\"", m.gap + (":" + cell), tail);
    Regroup(m.gap, ":" + cell, tail);
    Regroup(":", cell, tail);
  }

  /** One member, up to what follows its value. */
  lemma KeyRead(t: string, key: string, gap: string, body: string, v: Json, after: string, next: string,
                sofar: map<string, Json>)
    requires forall k :: k in sofar ==> Valid(sofar[k])
    requires t != "" && t[0] == '"' && ReadString(t[1..]) == Got(key, gap + (":" + body)) && Blank(gap)
    requires Read(body) == Got(v, after + next) && Blank(after) && next != "" && !IsSpace(next[0])
    ensures next[0] == '}' ==> ReadMembers(t, sofar) == Got(sofar[key := v], next[1..])
    ensures next[0] == ',' ==> ReadMembers(t, sofar) == ReadMembers(next[1..], sofar[key := v])
  {
    SkipGap(gap, ":" + body);
    NoGap(':', body);
    SkipGap(after, next);
    assert SkipSpace(next) == next && SkipSpace(t) == t;
  }

  lemma MembersBehindGap(gap: string, t: string, sofar: map<string, Json>)
    requires Blank(gap) && forall k :: k in sofar ==> Valid(sofar[k])
    requires t != "" && t[0] == '"'
    ensures ReadMembers(gap + t, sofar) == ReadMembers(t, sofar)
  {
    SkipGap(gap, t);
  }

  lemma {:induction false} ReadMember(m: Member, next: string, sofar: map<string, Json>)
    requires GoodMember(m) && next != "" && next[0] in {',', '}'} && forall k :: k in sofar ==> Valid(sofar[k])
    ensures Valid(Denotes(m.cell.doc))
    ensures next[0] == '}' ==>
      ReadMembers(MemberText(m) + next, sofar) == Got(sofar[Spelled(m.key) := Denotes(m.cell.doc)], next[1..])
    ensures next[0] == ',' ==>
      ReadMembers(MemberText(m) + next, sofar) == ReadMembers(next[1..], sofar[Spelled(m.key) := Denotes(m.cell.doc)])
    decreases m, 1
  {
    var body := CellText(m.cell) + next;
    var inner := Chars(m.key) + ("\"" + (m.gap + (":" + body)));
    MemberApart(m, next);
    ReadCell(m.cell, next);
    ReadChars(m.key, m.gap + (":" + body));
    assert ("\"" + inner)[1..] == inner;
    KeyRead("\"" + inner, Spelled(m.key), m.gap, body, Denotes(m.cell.doc), m.cell.after, next, sofar);
    MembersBehindGap(m.before, "\"" + inner, sofar);
  }

  lemma {:induction false} ReadRecord(owner: Doc, members: seq<Member>, sofar: map<string, Json>, rest: string)
    requires members != [] && forall i :: 0 <= i < |members| ==> members[i] < owner && GoodMember(members[i])
    requires forall k :: k in sofar ==> Valid(sofar[k])
    ensures ReadMembers(MembersText(owner, members) + rest, sofar) == Got(Fields(owner, members, sofar), rest)
    decreases owner, 0, |members|
  {
    var m := members[0];
    if |members| == 1 {
      Regroup(MemberText(m), "}", rest);
      ReadMember(m, "}" + rest, sofar);
      assert ("}" + rest)[1..] == rest;
    } else {
      var more := MembersText(owner, members[1..]) + rest;
      Regroup(MemberText(m), "," + MembersText(owner, members[1..]), rest);
      Regroup(",", MembersText(owner, members[1..]), rest);
      ReadMember(m, "," + more, sofar);
      assert ("," + more)[1..] == more;
      ReadRecord(owner, members[1..], sofar[Spelled(m.key) := Denotes(m.cell.doc)], rest);
    }
  }

  /** So a section means what it denotes however it is laid out. */
  lemma MeansWhatItDenotes(c: Cell)
    requires GoodCell(c)
    ensures Meaning(CellText(c)) == Value(Denotes(c.doc))
  {
    ReadCell(c, "");
    assert CellText(c) + "" == CellText(c);
  }

  /** And two layouts compare equal exactly when they denote the same value. */
  lemma LayoutDoesNotCount(a: Cell, b: Cell)
    requires GoodCell(a) && GoodCell(b)
    ensures RawEqualNormalized(CellText(a), CellText(b)) <==> Denotes(a.doc) == Denotes(b.doc)
  {
    MeansWhatItDenotes(a);
    MeansWhatItDenotes(b);
    RawEqualIffSameMeaning(CellText(a), CellText(b));
  }

  /** Reading a whole text wants the value to be all of it; decoding takes the value and leaves what follows. */
  lemma WholeOrFirst(c: Cell, more: string)
    requires GoodCell(c) && more != "" && more[0] in {',', ']', '}'}
    ensures Unmarshal(CellText(c)) == Some(Denotes(c.doc)) == Decode(CellText(c))
    ensures Unmarshal(CellText(c) + more) == None && Decode(CellText(c) + more) == Some(Denotes(c.doc))
  {
    ReadCell(c, "");
    ReadCell(c, more);
    SkipGap(c.after, "");
    SkipGap(c.after, more);
    assert CellText(c) + "" == CellText(c) && c.after + "" == c.after;
  }
}
