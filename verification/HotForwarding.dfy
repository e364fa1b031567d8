/** Which clients the panel can change in place: what its own configs hold, and what an account loses. */
module HotForwarding {
  import opened HotAccounts
  import opened HotApply
  import opened HotDiff
  import opened HotPatch
  import opened Json
  import opened Options
  import opened XrayConfig

  // ---------- configs the panel wrote ----------

  /** Some of these fields, as non-empty strings. */
  predicate Strings(m: Fields, names: set<string>) {
    forall k :: k in m && k in names ==> m[k].Str? && m[k].s != ""
  }

  predicate Among(m: Fields, names: set<string>) {
    forall k :: k in m ==> k in names
  }

  /** A client as the panel writes it into a generated config. */
  predicate PanelClient(protocol: string, m: Fields) {
    if protocol == "vmess" then Strings(m, {"email", "id", "security"}) && Among(m, {"email", "id", "security"})
    else if protocol == "trojan" then
      Strings(m, {"email", "password", "flow"}) && Among(m, {"email", "password", "flow"})
    else
      && Strings(m, {"email", "id", "flow"}) && Among(m, {"email", "id", "flow", "reverse"})
      && ("reverse" in m ==> m["reverse"].Obj?)
  }

  /** Every diffable inbound holds settings the panel marshalled, with clients it wrote. */
  predicate PanelWritten(n: Config) {
    forall i :: 0 <= i < |n.inbounds| && UserDiffable(n.inbounds[i].protocol) ==> PanelInbound(n.inbounds[i])
  }

  predicate PanelInbound(ib: InboundConfig) {
    && Unmarshal(ib.settings).Some?
    && forall e :: e in Users(ib) ==> Users(ib)[e].Obj? && PanelClient(ib.protocol, Users(ib)[e].fields)
  }

  /** What such a client needs: its secret, and for vmess no cipher and for trojan no flow of its own. */
  predicate PanelCarried(protocol: string, m: Fields) {
    if protocol == "vmess" then "id" in m && "security" !in m
    else if protocol == "trojan" then "password" in m && "flow" !in m
    else "id" in m
  }

  lemma NoReverse(ib: InboundConfig, e: string)
    requires Unmarshal(ib.settings).Some? && !HasReverseClient(ib) && e in Users(ib)
    requires Users(ib)[e].Obj? && "reverse" in Users(ib)[e].fields
    ensures Users(ib)[e].fields["reverse"] == Null
  {
    SplitUsers(ib.settings, e);
    var clients := Decode(ib.settings).value.fields["clients"].items;
    IndexClientsExactly(clients);
    var i :| 0 <= i < |clients| && clients[i] == Users(ib)[e];
    assert forall j :: 0 <= j < |clients| ==> clients[j].Obj?;
  }

  lemma PanelClientCarried(protocol: string, m: Fields)
    requires UserDiffable(protocol) && PanelClient(protocol, m)
    requires protocol == "vless" ==> "reverse" !in m
    ensures Carried(protocol, m) <==> PanelCarried(protocol, m)
  {
    assert forall k :: k in m && m[k].Str? && m[k].s != "" ==> !Zero(m[k]);
  }

  lemma PanelAdded(o: Config, n: Config, d: Ops, op: UserOp)
    requires Reloadable(o, n) && Describes(d, o, n) && PanelWritten(n) && op in d.addedUsers
    ensures op.user.Some? && op.user.value.Obj?
    ensures Carried(op.protocol, op.user.value.fields) <==> PanelCarried(op.protocol, op.user.value.fields)
  {
    assert d.addedUsers[0..] == d.addedUsers;
    AddedUsersAre(o.inbounds, n.inbounds, ApiTag(n.api), d.addedUsers, op);
    var ib := ByTag(n.inbounds)[op.tag];
    ByTagKeys(n.inbounds, op.tag);
    assert PanelInbound(ib);
    if op.protocol == "vless" && "reverse" in op.user.value.fields { NoReverse(ib, op.email); }
    PanelClientCarried(op.protocol, op.user.value.fields);
  }

  /** What can be checked of the diff of a generated config. */
  predicate AllPanelCarried(d: Ops) {
    forall op :: op in d.addedUsers ==>
      op.user.Some? && op.user.value.Obj? && PanelCarried(op.protocol, op.user.value.fields)
  }

  lemma AllPanelAdded(o: Config, n: Config, d: Ops)
    requires Reloadable(o, n) && Describes(d, o, n) && PanelWritten(n)
    ensures AllCarried(d) <==> AllPanelCarried(d)
  {
    forall op | op in d.addedUsers
      ensures op.user.Some? && op.user.value.Obj?
      ensures Carried(op.protocol, op.user.value.fields) <==> PanelCarried(op.protocol, op.user.value.fields)
    {
      PanelAdded(o, n, d, op);
    }
  }

  /** For a config the panel generated the patch is right exactly when every added client has its secret, no added
      vmess client has a cipher and no added trojan client a flow; vless clients are always carried whole. */
  lemma PanelPatchCorrect(o: Config, n: Config, d: Ops)
    requires Reloadable(o, n) && Describes(d, o, n) && PanelWritten(n)
    ensures var r := Run(Boot(o), Calls(d)); r.Some? && SameService(r.value, Boot(n)) <==> AllPanelCarried(d)
  {
    PatchCorrect(o, n, d);
    AllPanelAdded(o, n, d);
  }

  // ---------- when the calls go through ----------

  predicate AllComplete(d: Ops) {
    forall op :: op in d.addedUsers ==>
      op.user.Some? && op.user.value.Obj? && Complete(op.protocol, op.user.value.fields)
  }

  lemma AcceptedIffComplete(o: Config, n: Config, d: Ops, op: UserOp)
    requires Reloadable(o, n) && Describes(d, o, n) && op in d.addedUsers
    ensures op.user.Some? && op.user.value.Obj?
    ensures Accepted(op) <==> Complete(op.protocol, op.user.value.fields)
  {
    WholeIffCarried(o, n, d, op);
    ForwardedExactly(op.protocol, op.user.value.fields);
  }

  /** The calls of a diff go through exactly when every added client has an email and the secret of its protocol as
      texts, and a vless client no flow that is anything but a text. */
  lemma PatchRunsExactly(o: Config, n: Config, d: Ops)
    requires Reloadable(o, n) && Describes(d, o, n)
    ensures Run(Boot(o), Calls(d)).Some? <==> AllComplete(d)
  {
    PatchRuns(o, n, d);
    forall op | op in d.addedUsers
      ensures op.user.Some? && op.user.value.Obj?
      ensures Accepted(op) <==> Complete(op.protocol, op.user.value.fields)
    {
      AcceptedIffComplete(o, n, d, op);
    }
  }

  // ---------- a client that is not carried ----------

  /** A config with one vless inbound and one client, written out. */
  function SettingsOf(c: Json): Json {
    Obj(map["clients" := Arr([c])])
  }

  function OneInbound(c: Json): InboundConfig {
    InboundConfig("", 443, "vless", Print(SettingsOf(c)), "", "in-443", "")
  }

  function OneClient(c: Json): Config {
    Config("", "", "", [OneInbound(c)], "", "", "", "", "", "", "", "", "", "", "", "")
  }

  /** The diff of two such configs: the client is removed and added again. */
  function Replaced(e: string, c: Json): Ops {
    NO_OPS.(removedUsers := [UserOp("in-443", "vless", e, None)],
            addedUsers := [UserOp("in-443", "vless", e, Some(c))])
  }

  lemma SettingsRead(c: Json)
    requires Valid(c)
    ensures Print(SettingsOf(c)) != ""
    ensures Decode(Print(SettingsOf(c))) == Some(SettingsOf(c)) == Unmarshal(Print(SettingsOf(c)))
    ensures Meaning(Print(SettingsOf(c))) == Value(SettingsOf(c))
  {
    var v := SettingsOf(c);
    assert Valid(v.fields["clients"]) && Valid(v);
    ReadPrint(v, "");
    PrintHead(v);
    assert Print(v) + "" == Print(v);
  }

  lemma IndexOne(c: Json, e: string)
    requires c.Obj? && EmailOf(c) == e != ""
    ensures IndexClients([c]) == Some(map[e := c])
  {
    assert [c][..0] == [] && IndexClients([]) == Some(map[]);
    assert IndexClients([c]) == Some(map[][e := c]);
  }

  lemma SplitOne(settings: Raw, c: Json, e: string)
    requires settings != "" && Decode(settings) == Some(SettingsOf(c)) && IndexClients([c]) == Some(map[e := c])
    ensures SplitSettings(settings) == Some(Settings(Obj(map[]), map[e := c]))
  {
    assert SettingsOf(c).fields - {"clients"} == map[];
  }

  lemma SettingsSplit(c: Json, e: string)
    requires Valid(c) && c.Obj? && EmailOf(c) == e != ""
    ensures SplitSettings(Print(SettingsOf(c))) == Some(Settings(Obj(map[]), map[e := c]))
  {
    SettingsRead(c);
    IndexOne(c, e);
    SplitOne(Print(SettingsOf(c)), c, e);
  }

  lemma NoReverseClient(c: Json)
    requires Valid(c) && c.Obj? && "reverse" !in c.fields
    ensures !HasReverseClient(OneInbound(c))
  {
    SettingsRead(c);
  }

  /** Two versions of the client under one email. */
  predicate Versions(e: string, a: Json, b: Json) {
    && Valid(a) && a.Obj? && EmailOf(a) == e != "" && "reverse" !in a.fields
    && Valid(b) && b.Obj? && EmailOf(b) == e && "reverse" !in b.fields && a != b
  }

  lemma SettingsDiffer(a: Json, b: Json)
    requires Valid(a) && Valid(b) && a != b
    ensures !RawEqualNormalized(Print(SettingsOf(a)), Print(SettingsOf(b)))
  {
    SettingsRead(a);
    SettingsRead(b);
    RawEqualIffSameMeaning(Print(SettingsOf(a)), Print(SettingsOf(b)));
    assert SettingsOf(a).fields["clients"].items[0] == a && SettingsOf(b).fields["clients"].items[0] == b;
  }

  lemma OnlyClientsDiffer(e: string, a: Json, b: Json)
    requires Versions(e, a, b)
    ensures OnlyUsersDiffer(OneInbound(a), OneInbound(b))
    ensures Users(OneInbound(a)) == map[e := a] && Users(OneInbound(b)) == map[e := b]
  {
    SettingsSplit(a, e);
    SettingsSplit(b, e);
  }

  lemma OneClientJudged(e: string, a: Json, b: Json)
    requires Versions(e, a, b)
    ensures Judge(OneInbound(a), map["in-443" := OneInbound(b)], "api") == UserOps
  {
    SettingsDiffer(a, b);
    OnlyClientsDiffer(e, a, b);
    NoReverseClient(a);
    NoReverseClient(b);
    OneJudged(OneInbound(a), OneInbound(b));
  }

  lemma OneJudged(a: InboundConfig, b: InboundConfig)
    requires a.tag != "api" && !HasReverseClient(a) && !HasReverseClient(b)
    requires OnlyUsersDiffer(a, b) && !RawEqualNormalized(a.settings, b.settings)
    ensures Judge(a, map[a.tag := b], "api") == UserOps
  {
  }

  lemma OneInboundByTag(c: Json)
    ensures TagsOk([OneInbound(c)]) && ByTag([OneInbound(c)]) == map["in-443" := OneInbound(c)]
  {
    assert [OneInbound(c)][..0] == [] && ByTag([]) == map[];
  }

  lemma OneUnion<T>(s: set<T>)
    ensures Union([s]) == s
  {
    assert [s][..0] == [] && Union<T>([]) == {};
  }

  lemma OpsOfOne(x: InboundConfig, y: InboundConfig, e: string, a: Json, b: Json, adding: bool)
    requires Judge(x, map[x.tag := y], "api") == UserOps
    requires Users(x) == map[e := a] && Users(y) == map[e := b] && a != b
    ensures UserOpsAt(x, map[x.tag := y], "api", adding) ==
      {UserOp(x.tag, x.protocol, e, if adding then Some(b) else None)}
  {
    assert AllEmails(x, y) == {e};
  }

  lemma OpsForOne(x: InboundConfig, newByTag: map<string, InboundConfig>, adding: bool)
    ensures UserOpsFor([x], newByTag, "api", adding) == UserOpsAt(x, newByTag, "api", adding)
  {
    var ops := UserOpsAt(x, newByTag, "api", adding);
    OneUnion(ops);
    assert seq(|[x]|, i requires 0 <= i < |[x]| => UserOpsAt([x][i], newByTag, "api", adding)) == [ops];
  }

  /** The one operation of a kind when one inbound changes one client. */
  lemma OneOp(x: InboundConfig, y: InboundConfig, e: string, a: Json, b: Json, adding: bool)
    requires Judge(x, map[x.tag := y], "api") == UserOps
    requires Users(x) == map[e := a] && Users(y) == map[e := b] && a != b
    ensures UserOpsFor([x], map[x.tag := y], "api", adding) ==
      {UserOp(x.tag, x.protocol, e, if adding then Some(b) else None)}
  {
    OpsOfOne(x, y, e, a, b, adding);
    OpsForOne(x, map[x.tag := y], adding);
  }

  lemma SectionsAlike(a: Json, b: Json)
    ensures StaticsEqual(OneClient(a), OneClient(b)) && RoutingReloadable("", "")
    ensures OutboundsReloadable(Outbounds(""), Outbounds("")) && ApiTag("") == "api"
  {
    assert SkipSpace("") == "";
  }

  lemma OneClientReloadable(e: string, a: Json, b: Json)
    requires Versions(e, a, b)
    ensures Reloadable(OneClient(a), OneClient(b))
  {
    OneInboundByTag(a);
    OneInboundByTag(b);
    OneClientJudged(e, a, b);
    SectionsAlike(a, b);
  }

  lemma NothingElse(x: InboundConfig, y: InboundConfig)
    requires Judge(x, map[x.tag := y], "api") == UserOps && x.tag == y.tag
    ensures Removed([x], map[x.tag := y], "api") == {} && Readded([x], map[x.tag := y], "api") == {}
    ensures Novel([y], map[x.tag := x]) == {}
  {
  }

  lemma OneOfEach(x: InboundConfig, y: InboundConfig, out: UserOp, back: UserOp)
    requires ByTag([x]) == map[x.tag := x] && ByTag([y]) == map[x.tag := y] && x.tag == y.tag
    requires Judge(x, map[x.tag := y], "api") == UserOps
    requires UserOpsFor([x], map[x.tag := y], "api", false) == {out}
    requires UserOpsFor([x], map[x.tag := y], "api", true) == {back}
    ensures InboundOps(NO_OPS, NO_OPS.(removedUsers := [out], addedUsers := [back]), [x], [y], "api")
  {
    NothingElse(x, y);
    assert [out][0..] == [out] && [back][0..] == [back];
  }

  lemma NoOutboundOps(d: Ops)
    requires d.removedOutbounds == [] && d.addedOutbounds == []
    ensures OutboundOps(NO_OPS, d, [], [])
  {
    assert Gone([], []) == {} && Swapped([], []) + Unseen([], []) == {};
  }

  /** Changing the one client is done by one removal and one addition. */
  lemma OneClientDiff(e: string, a: Json, b: Json)
    requires Versions(e, a, b)
    ensures Reloadable(OneClient(a), OneClient(b)) && Describes(Replaced(e, b), OneClient(a), OneClient(b))
  {
    var x, y := OneInbound(a), OneInbound(b);
    OneClientReloadable(e, a, b);
    OneInboundByTag(a);
    OneInboundByTag(b);
    OneClientJudged(e, a, b);
    OnlyClientsDiffer(e, a, b);
    OneOp(x, y, e, a, b, false);
    OneOp(x, y, e, a, b, true);
    OneOfEach(x, y, UserOp("in-443", "vless", e, None), UserOp("in-443", "vless", e, Some(b)));
    SectionsAlike(a, b);
    NoOutboundOps(Replaced(e, b));
  }

  lemma OneCarried(d: Ops, op: UserOp)
    requires d.addedUsers == [op]
    ensures (forall u :: u in d.addedUsers ==> Accepted(u)) <==> Accepted(op)
    ensures op.user.Some? && op.user.value.Obj? ==> (AllCarried(d) <==> Carried(op.protocol, op.user.value.fields))
  {
    assert d.addedUsers[0] == op;
  }

  lemma OneAddition(o: Config, n: Config, d: Ops, op: UserOp)
    requires Reloadable(o, n) && Describes(d, o, n) && d.addedUsers == [op]
    requires op.user.Some? && op.user.value.Obj?
    ensures Run(Boot(o), Calls(d)).Some? <==> Accepted(op)
    ensures var r := Run(Boot(o), Calls(d));
      r.Some? && SameService(r.value, Boot(n)) <==> Carried(op.protocol, op.user.value.fields)
  {
    OneCarried(d, op);
    PatchRuns(o, n, d);
    PatchCorrect(o, n, d);
  }

  /** A reloadable change whose calls leave the core serving something else. */
  ghost predicate Missed(o: Config, n: Config, d: Ops) {
    && Reloadable(o, n) && Describes(d, o, n)
    && var r := Run(Boot(o), Calls(d)); !(r.Some? && SameService(r.value, Boot(n)))
  }

  lemma UncarriedMissed(o: Config, n: Config, d: Ops, op: UserOp)
    requires Reloadable(o, n) && Describes(d, o, n) && d.addedUsers == [op]
    requires op.user.Some? && op.user.value.Obj? && !Carried(op.protocol, op.user.value.fields)
    ensures Missed(o, n, d)
    ensures Run(Boot(o), Calls(d)).Some? <==> Accepted(op)
  {
    OneAddition(o, n, d, op);
  }

  /** Any client that its account does not carry is lost that way: the calls go through when the client is accepted,
      but the core never ends up serving the new config. */
  lemma UncarriedIsLost(o: Config, n: Config, d: Ops, e: string, a: Json, b: Json)
    requires Versions(e, a, b) && !Carried("vless", b.fields)
    requires o == OneClient(a) && n == OneClient(b) && d == Replaced(e, b)
    ensures Missed(o, n, d)
    ensures Run(Boot(o), Calls(d)).Some? <==> Forwarded("vless", b).Some?
  {
    assert Reloadable(o, n) && Describes(d, o, n) by { OneClientDiff(e, a, b); }
    UncarriedMissed(o, n, d, UserOp("in-443", "vless", e, Some(b)));
  }

  /** Such a client, of level 1, whose flow changes: all calls go through, and the core serves it without its level. */
  lemma LevelIsLost(o: Config, n: Config, d: Ops, a: Json, b: Json)
    requires a == Obj(map["email" := Str("joe"), "id" := Str("key"), "level" := Num("1")])
    requires b == Obj(map["email" := Str("joe"), "id" := Str("key"), "level" := Num("1"), "flow" := Str("vision")])
    requires o == OneClient(a) && n == OneClient(b) && d == Replaced("joe", b)
    ensures Missed(o, n, d) && Run(Boot(o), Calls(d)).Some?
  {
    LevelVersions(a, b);
    UncarriedIsLost(o, n, d, "joe", a, b);
  }

  lemma ValidFields(m: Fields)
    requires forall k :: k in m ==> m[k].Str? || m[k] == Num("1")
    ensures Valid(Obj(m))
  {
    OneIsANumber();
  }

  lemma LevelNotCarried(m: Fields)
    requires "level" in m && m["level"] == Num("1")
    ensures !Carried("vless", m)
  {
  }

  lemma VlessForwarded(m: Fields)
    requires "email" in m && m["email"].Str? && "id" in m && m["id"].Str? && "flow" in m && m["flow"].Str?
    ensures Forwarded("vless", Obj(m)).Some?
  {
  }

  lemma TwoVersions(e: string, a: Fields, b: Fields)
    requires Valid(Obj(a)) && Valid(Obj(b)) && "reverse" !in a && "reverse" !in b && e != ""
    requires "email" in a && a["email"] == Str(e) && "email" in b && b["email"] == Str(e)
    requires "flow" in b && "flow" !in a
    ensures Versions(e, Obj(a), Obj(b))
  {
  }

  lemma LevelVersions(a: Json, b: Json)
    requires a == Obj(map["email" := Str("joe"), "id" := Str("key"), "level" := Num("1")])
    requires b == Obj(map["email" := Str("joe"), "id" := Str("key"), "level" := Num("1"), "flow" := Str("vision")])
    ensures Versions("joe", a, b) && !Carried("vless", b.fields) && Forwarded("vless", b).Some?
  {
    ValidFields(a.fields);
    ValidFields(b.fields);
    TwoVersions("joe", a.fields, b.fields);
    LevelNotCarried(b.fields);
    VlessForwarded(b.fields);
  }

  lemma OneIsANumber()
    ensures ValidNumber("1")
  {
  }
}
