/** The generated Xray configuration and what its raw JSON sections mean. */
module XrayConfig {
  import opened Json
  import opened Options

  /** json_util.RawMessage: the bytes of one section, empty when the section is absent. */
  type Raw = string

  datatype InboundConfig = InboundConfig(
    listen: Raw, port: int, protocol: string, settings: Raw,
    streamSettings: Raw, tag: string, sniffing: Raw)

  datatype Config = Config(
    log: Raw, routing: Raw, dns: Raw, inbounds: seq<InboundConfig>, outbounds: Raw, transport: Raw,
    policy: Raw, api: Raw, stats: Raw, reverse: Raw, fakeDns: Raw, observatory: Raw,
    burstObservatory: Raw, metrics: Raw, geodata: Raw, env: Raw)

  /** Decoder.Decode: the first value of the text; whatever follows it is not looked at. */
  function Decode(raw: Raw): (r: Option<Json>)
    ensures r.Some? ==> Valid(r.value)
  {
    match Read(raw)
    case Fail => None
    case Got(v, _) => Some(v)
  }

  /** json.Unmarshal: the text must hold one value and nothing else. */
  function Unmarshal(raw: Raw): (r: Option<Json>)
    ensures r.Some? ==> Valid(r.value)
  {
    match Read(raw)
    case Fail => None
    case Got(v, rest) => if SkipSpace(rest) == "" then Some(v) else None
  }

  /** Canonical text of a section; absent and null both give the empty text, None is a parse error. */
  function CanonicalJson(raw: Raw): Option<string> {
    if raw == "" then Some("") else
      match Decode(raw)
      case None => None
      case Some(v) => if v == Null then Some("") else Some(Print(v))
  }

  predicate RawEqualNormalized(a: Raw, b: Raw) {
    a == b || (CanonicalJson(a).Some? && CanonicalJson(a) == CanonicalJson(b))
  }

  /** What a section says: its value, with an absent section reading as null. */
  datatype Section = Unreadable(text: string) | Value(v: Json)

  function Meaning(raw: Raw): (m: Section) {
    if raw == "" then Value(Null) else
      match Decode(raw)
      case None => Unreadable(raw)
      case Some(v) => Value(v)
  }

  /** Normalised comparison says "equal" exactly when the two sections mean the same: layout, key
      order, repeated keys and null-versus-absent do not count, every digit of a number does. */
  lemma RawEqualIffSameMeaning(a: Raw, b: Raw)
    ensures RawEqualNormalized(a, b) <==> Meaning(a) == Meaning(b)
  {
    match (Meaning(a), Meaning(b)) {
      case (Value(v), Value(w)) =>
        PrintInjective(v, w);
        PrintHead(v);
        PrintHead(w);
      case _ =>
    }
  }

  /** Normalising is stable: the canonical text of a section means what the section meant. */
  lemma CanonicalKeepsMeaning(raw: Raw)
    requires CanonicalJson(raw).Some?
    ensures Meaning(CanonicalJson(raw).value) == Meaning(raw)
  {
    match Meaning(raw) {
      case Value(v) =>
        ReadPrint(v, "");
        assert Print(v) + "" == Print(v);
        PrintHead(v);
      case _ =>
    }
  }

  // ---------- the struct decoders ----------

  /** A struct field of type string: absent and null leave it empty, another type is an error. */
  function StringField(v: Json, name: string): Option<string> {
    match v
    case Null => Some("")
    case Obj(m) =>
      if name !in m || m[name] == Null then Some("")
      else if m[name].Str? then Some(m[name].s)
      else None
    case _ => None
  }

  function ApiTag(api: Raw): string {
    match Unmarshal(api)
    case None => "api"
    case Some(v) =>
      match StringField(v, "tag")
      case None => "api"
      case Some(t) => if t == "" then "api" else t
  }

  predicate UsesReality(ib: InboundConfig) {
    match Unmarshal(ib.streamSettings)
    case None => false
    case Some(v) => StringField(v, "security") == Some("reality")
  }

  /** Settings that decode into {clients: [{reverse: any}]} with some reverse field that is not null. */
  predicate HasReverseClient(ib: InboundConfig) {
    match Unmarshal(ib.settings)
    case Some(Obj(m)) =>
      && "clients" in m && m["clients"].Arr?
      && var clients := m["clients"].items;
      && (forall i :: 0 <= i < |clients| ==> clients[i].Obj? || clients[i].Null?)
      && (exists i :: 0 <= i < |clients| && clients[i].Obj? && "reverse" in clients[i].fields
           && clients[i].fields["reverse"] != Null)
    case _ => false
  }

  /** json.Marshal of an inbound fails on a section that is not JSON. */
  predicate Marshals(ib: InboundConfig) {
    forall raw :: raw in [ib.listen, ib.settings, ib.streamSettings, ib.sniffing] ==>
      raw == "" || Unmarshal(raw).Some?
  }

  // ---------- settings.clients ----------

  datatype Settings = Settings(rest: Json, users: map<string, Json>)

  /** Clients indexed by email; None when one of them is no object, has no email, or repeats one. */
  function IndexClients(clients: seq<Json>): Option<map<string, Json>> {
    if clients == [] then Some(map[]) else
      var c := clients[|clients| - 1];
      match IndexClients(clients[..|clients| - 1])
      case None => None
      case Some(m) =>
        if !c.Obj? || StringOr(c.fields, "email") == "" || StringOr(c.fields, "email") in m then None
        else Some(m[StringOr(c.fields, "email") := c])
  }

  /** A map lookup with a type assertion to string: the empty string when either fails. */
  function StringOr(m: map<string, Json>, key: string): string {
    if key in m && m[key].Str? then m[key].s else ""
  }

  function EmailOf(client: Json): string {
    if client.Obj? then StringOr(client.fields, "email") else ""
  }

  /** Every client is an object with its own non-empty email. */
  predicate Addressed(clients: seq<Json>) {
    && (forall i :: 0 <= i < |clients| ==> EmailOf(clients[i]) != "")
    && (forall i, j :: 0 <= i < j < |clients| ==> EmailOf(clients[i]) != EmailOf(clients[j]))
  }

  /** The index holds every client under its email, and nothing else. */
  ghost predicate IndexedBy(clients: seq<Json>, index: map<string, Json>) {
    && (forall i :: 0 <= i < |clients| ==> EmailOf(clients[i]) in index && index[EmailOf(clients[i])] == clients[i])
    && (forall e :: e in index ==> index[e] in clients && EmailOf(index[e]) == e)
  }

  lemma AddressedSnoc(init: seq<Json>, c: Json)
    ensures Addressed(init + [c]) <==>
      Addressed(init) && EmailOf(c) != "" && forall i :: 0 <= i < |init| ==> EmailOf(init[i]) != EmailOf(c)
  {
    var all := init + [c];
    assert forall i :: 0 <= i < |init| ==> all[i] == init[i];
    assert all[|init|] == c;
  }

  lemma IndexedSnoc(init: seq<Json>, index: map<string, Json>, c: Json)
    requires IndexedBy(init, index) && EmailOf(c) !in index
    ensures IndexedBy(init + [c], index[EmailOf(c) := c])
  {
    var all := init + [c];
    assert all[|init|] == c && forall x :: x in init ==> x in all;
  }

  /** An email is in the index exactly when some client has it. */
  lemma EmailIndexed(clients: seq<Json>, index: map<string, Json>, e: string)
    requires IndexedBy(clients, index)
    ensures e in index <==> exists i :: 0 <= i < |clients| && EmailOf(clients[i]) == e
  {
    if e in index {
      var i :| 0 <= i < |clients| && clients[i] == index[e];
    }
  }

  /** Clients can be indexed exactly when each has its own non-empty email, and the index then holds them all. */
  lemma {:induction false} IndexClientsExactly(clients: seq<Json>)
    ensures IndexClients(clients).Some? <==> Addressed(clients)
    ensures IndexClients(clients).Some? ==> IndexedBy(clients, IndexClients(clients).value)
  {
    if clients != [] {
      var n := |clients| - 1;
      var init, c := clients[..n], clients[n];
      assert clients == init + [c];
      IndexClientsExactly(init);
      AddressedSnoc(init, c);
      if IndexClients(init).Some? {
        var index := IndexClients(init).value;
        EmailIndexed(init, index, EmailOf(c));
        if EmailOf(c) !in index { IndexedSnoc(init, index, c); }
      }
    }
  }

  function SplitSettings(raw: Raw): Option<Settings> {
    match Decode(raw)
    case Some(Obj(m)) =>
      if "clients" !in m || !m["clients"].Arr? then None else
        (match IndexClients(m["clients"].items)
         case None => None
         case Some(users) => Some(Settings(Obj(m - {"clients"}), users)))
    case _ => None
  }

  lemma {:induction false} IndexedAreValid(clients: seq<Json>, e: string)
    requires forall i :: 0 <= i < |clients| ==> Valid(clients[i])
    requires IndexClients(clients).Some? && e in IndexClients(clients).value
    ensures Valid(IndexClients(clients).value[e])
  {
    var n := |clients| - 1;
    if e in IndexClients(clients[..n]).value {
      IndexedAreValid(clients[..n], e);
    }
  }

  lemma SplitIsValid(raw: Raw)
    requires SplitSettings(raw).Some?
    ensures Valid(SplitSettings(raw).value.rest)
    ensures forall e :: e in SplitSettings(raw).value.users ==> Valid(SplitSettings(raw).value.users[e])
  {
    var m := Decode(raw).value.fields;
    assert Valid(m["clients"]);
    forall e | e in SplitSettings(raw).value.users ensures Valid(SplitSettings(raw).value.users[e]) {
      IndexedAreValid(m["clients"].items, e);
    }
  }

  /** The users of a section are its clients, each under its own email. */
  lemma SplitUsers(raw: Raw, e: string)
    requires SplitSettings(raw).Some? && e in SplitSettings(raw).value.users
    ensures var c := SplitSettings(raw).value.users[e];
      c.Obj? && EmailOf(c) == e && e != "" && c in Decode(raw).value.fields["clients"].items
  {
    IndexClientsExactly(Decode(raw).value.fields["clients"].items);
  }

  /** Settings that hold a list of clients, each with its own email. */
  predicate HasAddressedClients(raw: Raw) {
    match Decode(raw)
    case Some(Obj(m)) => "clients" in m && m["clients"].Arr? && Addressed(m["clients"].items)
    case _ => false
  }

  /** A client list that cannot be indexed stays so whatever follows. */
  lemma {:induction false} IndexStuck(clients: seq<Json>, n: nat)
    requires n <= |clients| && IndexClients(clients[..n]).None?
    ensures IndexClients(clients).None?
    decreases |clients| - n
  {
    if n == |clients| {
      assert clients[..n] == clients;
    } else {
      assert clients[..n + 1][..n] == clients[..n];
      IndexStuck(clients, n + 1);
    }
  }

  /** The loop over the clients. */
  method IndexList(list: seq<Json>) returns (clients: map<string, Json>, ok: bool)
    ensures ok <==> IndexClients(list).Some?
    ensures ok ==> clients == IndexClients(list).value
  {
    clients := map[];
    for i := 0 to |list|
      invariant IndexClients(list[..i]) == Some(clients)
    {
      assert list[..i + 1][..i] == list[..i];
      var c := list[i];
      if !c.Obj? {
        IndexStuck(list, i + 1);
        return clients, false;
      }
      var email := StringOr(c.fields, "email");
      if email == "" || email in clients {
        IndexStuck(list, i + 1);
        return clients, false;
      }
      clients := clients[email := c];
    }
    assert list[..|list|] == list;
    ok := true;
  }

  /** splitSettingsClients: index settings.clients by email, and the canonical text of the rest. A
      client's own canonical text, which the source keeps beside it, is Print of the client here. */
  method SplitSettingsClients(raw: Raw) returns (clients: map<string, Json>, rest: string, ok: bool)
    ensures ok <==> SplitSettings(raw).Some?
    ensures ok <==> HasAddressedClients(raw)
    ensures ok ==> clients == SplitSettings(raw).value.users
    ensures ok ==> IndexedBy(Decode(raw).value.fields["clients"].items, clients)
    ensures ok ==> rest == Print(SplitSettings(raw).value.rest)
  {
    clients, rest, ok := map[], "", false;
    if raw == "" {
      return;
    }
    var settings := Decode(raw);
    if settings.None? || !settings.value.Obj? {
      return;
    }
    var fields := settings.value.fields;
    if "clients" !in fields || !fields["clients"].Arr? {
      return;
    }
    var list := fields["clients"].items;
    IndexClientsExactly(list);
    clients, ok := IndexList(list);
    if ok {
      rest := Print(Obj(fields - {"clients"}));
    }
  }
}
