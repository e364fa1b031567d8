/** The diff and the service, read off the two configs field by field: when a change can be applied live, what the diff
    then holds, and when two configs ask for the same. */
module HotMeaning {
  import opened HotAccounts
  import opened HotApply
  import opened HotDiff
  import opened HotPatch
  import opened Json
  import opened Options
  import opened XrayConfig

  // ---------- inbounds ----------

  ghost predicate SameButSettings(a: InboundConfig, b: InboundConfig) {
    && a.tag == b.tag && a.port == b.port && a.protocol == b.protocol
    && Meaning(a.listen) == Meaning(b.listen)
    && Meaning(a.streamSettings) == Meaning(b.streamSettings)
    && Meaning(a.sniffing) == Meaning(b.sniffing)
  }

  ghost predicate SameInbound(a: InboundConfig, b: InboundConfig) {
    SameButSettings(a, b) && Meaning(a.settings) == Meaning(b.settings)
  }

  /** The fields agree but for these keys. */
  ghost predicate AlikeBut(x: map<string, Json>, y: map<string, Json>, names: set<string>) {
    forall k :: k !in names ==> (k in x <==> k in y) && (k in x ==> x[k] == y[k])
  }

  lemma RestAlike(x: map<string, Json>, y: map<string, Json>, names: set<string>)
    ensures x - names == y - names <==> AlikeBut(x, y, names)
  {
    var (p, q) := (x - names, y - names);
    if p == q {
      forall k | k !in names ensures (k in x <==> k in y) && (k in x ==> x[k] == y[k]) {
        assert k in x <==> k in p;
        assert k in y <==> k in q;
        if k in x { assert x[k] == p[k] == q[k] == y[k]; }
      }
    }
  }

  /** Settings that agree on every field but the list of addressable clients. */
  ghost predicate AlikeButClients(a: Raw, b: Raw) {
    && HasAddressedClients(a) && HasAddressedClients(b)
    && AlikeBut(Decode(a).value.fields, Decode(b).value.fields, {"clients"})
  }

  ghost predicate ClientsOnly(a: InboundConfig, b: InboundConfig) {
    && SameButSettings(a, b)
    && a.protocol in {"vless", "vmess", "trojan"}
    && AlikeButClients(a.settings, b.settings)
  }

  lemma SameInboundIs(a: InboundConfig, b: InboundConfig)
    ensures InboundEqualNormalized(a, b) <==> SameInbound(a, b)
  {
    RawEqualIffSameMeaning(a.listen, b.listen);
    RawEqualIffSameMeaning(a.settings, b.settings);
    RawEqualIffSameMeaning(a.streamSettings, b.streamSettings);
    RawEqualIffSameMeaning(a.sniffing, b.sniffing);
  }

  lemma SplitIsAddressed(raw: Raw)
    ensures SplitSettings(raw).Some? <==> HasAddressedClients(raw)
    ensures SplitSettings(raw).Some? ==> SplitSettings(raw).value.rest == Obj(Decode(raw).value.fields - {"clients"})
  {
    match Decode(raw)
    case Some(Obj(m)) =>
      if "clients" in m && m["clients"].Arr? { IndexClientsExactly(m["clients"].items); }
    case _ =>
  }

  lemma ClientsOnlyIs(a: InboundConfig, b: InboundConfig)
    ensures OnlyUsersDiffer(a, b) <==> ClientsOnly(a, b)
  {
    RawEqualIffSameMeaning(a.listen, b.listen);
    RawEqualIffSameMeaning(a.streamSettings, b.streamSettings);
    RawEqualIffSameMeaning(a.sniffing, b.sniffing);
    SplitIsAddressed(a.settings);
    SplitIsAddressed(b.settings);
    if HasAddressedClients(a.settings) && HasAddressedClients(b.settings) {
      RestAlike(Decode(a.settings).value.fields, Decode(b.settings).value.fields, {"clients"});
    }
  }

  /** Taking this inbound down and putting that one up under its tag breaks nothing. */
  predicate Replaceable(a: InboundConfig, b: InboundConfig) {
    !UsesReality(a) && !UsesReality(b) && Marshals(b)
  }

  predicate Reserved(tag: string, apiTag: string) {
    tag == apiTag || tag == "api"
  }

  /** What an old inbound needs of the new list: to be there with the same meaning, or not to be the panel's own and
      either to be gone or to be changed in a way that can be applied. */
  ghost predicate CanChange(a: InboundConfig, n: seq<InboundConfig>, apiTag: string) {
    forall j :: 0 <= j < |n| && n[j].tag == a.tag ==>
      || SameInbound(a, n[j])
      || (!Reserved(a.tag, apiTag) && !HasReverseClient(a) && !HasReverseClient(n[j])
          && (ClientsOnly(a, n[j]) || Replaceable(a, n[j])))
  }

  ghost predicate Listed(tag: string, ibs: seq<InboundConfig>) {
    exists i :: 0 <= i < |ibs| && ibs[i].tag == tag
  }

  ghost predicate CanLeave(a: InboundConfig, n: seq<InboundConfig>, apiTag: string) {
    Reserved(a.tag, apiTag) ==> Listed(a.tag, n)
  }

  ghost predicate CanCome(b: InboundConfig, o: seq<InboundConfig>, apiTag: string) {
    Listed(b.tag, o) || (!Reserved(b.tag, apiTag) && Marshals(b))
  }

  /** Every inbound has a tag, and no two have the same. */
  ghost predicate Tagged(ibs: seq<InboundConfig>) {
    && (forall i :: 0 <= i < |ibs| ==> ibs[i].tag != "")
    && (forall i, j :: 0 <= i < j < |ibs| ==> ibs[i].tag != ibs[j].tag)
  }

  ghost predicate InboundsAllow(o: seq<InboundConfig>, n: seq<InboundConfig>, apiTag: string) {
    && Tagged(o) && Tagged(n)
    && (forall i :: 0 <= i < |o| ==> CanChange(o[i], n, apiTag) && CanLeave(o[i], n, apiTag))
    && (forall i :: 0 <= i < |n| ==> CanCome(n[i], o, apiTag))
  }

  lemma ListedIs(ibs: seq<InboundConfig>, tag: string)
    ensures tag in ByTag(ibs) <==> Listed(tag, ibs)
  {
    if tag in ByTag(ibs) { ByTagKeys(ibs, tag); }
    if Listed(tag, ibs) {
      var i :| 0 <= i < |ibs| && ibs[i].tag == tag;
      ByTagAll(ibs, i);
    }
  }

  lemma {:induction false} ByTagAll(ibs: seq<InboundConfig>, i: nat)
    requires i < |ibs|
    ensures ibs[i].tag in ByTag(ibs)
  {
    if i < |ibs| - 1 { ByTagAll(ibs[..|ibs| - 1], i); }
  }

  /** The one inbound of a list under a tag. */
  lemma OneUnderTag(n: seq<InboundConfig>, j: nat)
    requires TagsOk(n) && j < |n|
    ensures n[j].tag in ByTag(n) && ByTag(n)[n[j].tag] == n[j]
    ensures forall k :: 0 <= k < |n| && n[k].tag == n[j].tag ==> k == j
  {
    ByTagAt(n, j);
  }

  lemma JudgedChange(a: InboundConfig, b: InboundConfig, byTag: map<string, InboundConfig>, apiTag: string)
    requires a.tag in byTag && byTag[a.tag] == b
    ensures Judge(a, byTag, apiTag) == Keep <==> SameInbound(a, b)
    ensures Judge(a, byTag, apiTag) != Refuse <==>
      || SameInbound(a, b)
      || (!Reserved(a.tag, apiTag) && !HasReverseClient(a) && !HasReverseClient(b)
          && (ClientsOnly(a, b) || Replaceable(a, b)))
    ensures Judge(a, byTag, apiTag) == UserOps ==> ClientsOnly(a, b)
    ensures Judge(a, byTag, apiTag) != Drop
    ensures Judge(a, byTag, apiTag) == Replace ==> !ClientsOnly(a, b)
  {
    SameInboundIs(a, b);
    ClientsOnlyIs(a, b);
  }

  lemma JudgedGone(a: InboundConfig, byTag: map<string, InboundConfig>, apiTag: string)
    requires a.tag !in byTag
    ensures Judge(a, byTag, apiTag) == if Reserved(a.tag, apiTag) then Refuse else Drop
  {
  }

  lemma OldAllowed(a: InboundConfig, n: seq<InboundConfig>, apiTag: string)
    requires TagsOk(n)
    ensures Judge(a, ByTag(n), apiTag) != Refuse <==> CanChange(a, n, apiTag) && CanLeave(a, n, apiTag)
  {
    ListedIs(n, a.tag);
    if Listed(a.tag, n) {
      var j :| 0 <= j < |n| && n[j].tag == a.tag;
      OneUnderTag(n, j);
      JudgedChange(a, n[j], ByTag(n), apiTag);
    } else {
      JudgedGone(a, ByTag(n), apiTag);
    }
  }

  lemma InboundsAllowed(o: seq<InboundConfig>, n: seq<InboundConfig>, apiTag: string)
    ensures InboundsReloadable(o, n, apiTag) <==> InboundsAllow(o, n, apiTag)
  {
    if TagsOk(o) && TagsOk(n) {
      forall i | 0 <= i < |o|
        ensures Judge(o[i], ByTag(n), apiTag) != Refuse <==> CanChange(o[i], n, apiTag) && CanLeave(o[i], n, apiTag)
      {
        OldAllowed(o[i], n, apiTag);
      }
      forall i | 0 <= i < |n| ensures Admissible(n[i], ByTag(o), apiTag) <==> CanCome(n[i], o, apiTag) {
        ListedIs(o, n[i].tag);
      }
    }
  }

  // ---------- outbounds ----------

  /** An outbound that can be addressed: an object with a non-empty text as its tag. */
  predicate Named(v: Json) {
    v.Obj? && "tag" in v.fields && v.fields["tag"].Str? && v.fields["tag"].s != ""
  }

  function NameOf(v: Json): string
    requires Named(v)
  {
    v.fields["tag"].s
  }

  lemma NamedIs(v: Json)
    ensures TagOf(v) != "" <==> Named(v)
    ensures Named(v) ==> TagOf(v) == NameOf(v)
  {
  }

  /** The section lists these outbounds; absent and null list none. */
  ghost predicate Lists(raw: Raw, items: seq<Json>) {
    if raw == "" || Unmarshal(raw) == Some(Null) then items == [] else Unmarshal(raw) == Some(Arr(items))
  }

  ghost predicate AllNamed(items: seq<Json>) {
    && (forall i :: 0 <= i < |items| ==> Named(items[i]))
    && (forall i, j :: 0 <= i < j < |items| ==> NameOf(items[i]) != NameOf(items[j]))
  }

  lemma AllNamedIs(items: seq<Json>)
    ensures OutboundsOk(items) <==> AllNamed(items)
  {
    forall i | 0 <= i < |items| ensures TagOf(items[i]) != "" <==> Named(items[i])
                                ensures Named(items[i]) ==> TagOf(items[i]) == NameOf(items[i])
                                ensures Tags(items)[i] == TagOf(items[i]) {
      NamedIs(items[i]);
    }
    if OutboundsOk(items) {
      forall i, j | 0 <= i < j < |items| ensures NameOf(items[i]) != NameOf(items[j]) {
        assert Tags(items)[i] != Tags(items)[j];
      }
    }
  }

  lemma ListedOutbounds(raw: Raw, items: seq<Json>)
    ensures Outbounds(raw) == Some(items) <==> Lists(raw, items) && AllNamed(items)
  {
    AllNamedIs(items);
  }

  /** Both sections list addressable outbounds, and the first one, the default, stays as it is. */
  ghost predicate OutboundsAllow(o: Raw, n: Raw) {
    exists a, b :: Lists(o, a) && Lists(n, b) && AllNamed(a) && AllNamed(b) && SameFirst(a, b)
  }

  predicate SameFirst(a: seq<Json>, b: seq<Json>) {
    (a == [] && b == []) || (a != [] && b != [] && a[0] == b[0])
  }

  lemma OutboundsAllowed(o: Raw, n: Raw)
    ensures OutboundsReloadable(Outbounds(o), Outbounds(n)) <==> OutboundsAllow(o, n)
  {
    if Outbounds(o).Some? && Outbounds(n).Some? {
      ListedOutbounds(o, Outbounds(o).value);
      ListedOutbounds(n, Outbounds(n).value);
    }
    if OutboundsAllow(o, n) {
      var a, b :| Lists(o, a) && Lists(n, b) && AllNamed(a) && AllNamed(b) && SameFirst(a, b);
      ListedOutbounds(o, a);
      ListedOutbounds(n, b);
    }
  }

  // ---------- routing ----------

  /** The routing text is the same, or both sections are there and differ in rules and balancers alone. */
  ghost predicate RoutingAllows(o: Raw, n: Raw) {
    || o == n
    || (o != "" && n != ""
        && match (Decode(o), Decode(n))
           case (Some(Null), Some(Null)) => true
           case (Some(Obj(x)), Some(Obj(y))) => AlikeBut(x, y, {"rules", "balancers"})
           case _ => false)
  }

  lemma RestPrinted(o: Raw, n: Raw)
    requires o != "" && n != "" && RoutingWithoutReloadable(o).Some? && RoutingWithoutReloadable(n).Some?
    ensures RoutingWithoutReloadable(o) == RoutingWithoutReloadable(n) <==> RestOf(o) == RestOf(n)
  {
    RestValues(o);
    RestValues(n);
    PrintInjective(RestOf(o), RestOf(n));
  }

  lemma RoutingAllowed(o: Raw, n: Raw)
    ensures RoutingReloadable(o, n) <==> RoutingAllows(o, n)
  {
    if o != "" && n != "" && RoutingWithoutReloadable(o).Some? && RoutingWithoutReloadable(n).Some? {
      RestPrinted(o, n);
      if Decode(o).value.Obj? && Decode(n).value.Obj? {
        RestAlike(Decode(o).value.fields, Decode(n).value.fields, {"rules", "balancers"});
      }
    }
  }

  // ---------- when a diff exists ----------

  /** A change can be applied live exactly when the thirteen sections without a reload API mean the same and inbounds,
      outbounds and routing change only in ways the core can follow. */
  lemma ReloadableExactly(o: Config, n: Config)
    ensures Reloadable(o, n) <==>
      && SectionsAgree(o, n, Meaning)
      && InboundsAllow(o.inbounds, n.inbounds, ApiTag(n.api))
      && OutboundsAllow(o.outbounds, n.outbounds)
      && RoutingAllows(o.routing, n.routing)
  {
    StaticsFieldByField(o, n);
    InboundsAllowed(o.inbounds, n.inbounds, ApiTag(n.api));
    OutboundsAllowed(o.outbounds, n.outbounds);
    RoutingAllowed(o.routing, n.routing);
  }

  /** The section is an object with this text under this key. */
  predicate Says(raw: Raw, key: string, text: string) {
    && Unmarshal(raw).Some? && Unmarshal(raw).value.Obj?
    && key in Unmarshal(raw).value.fields && Unmarshal(raw).value.fields[key] == Str(text)
  }

  /** The tag of the API inbound is what its section says, and "api" when that says no tag. */
  lemma ApiTagReads(api: Raw, tag: string)
    ensures tag != "" && Says(api, "tag", tag) ==> ApiTag(api) == tag
    ensures ApiTag(api) == "api" || (ApiTag(api) != "" && Says(api, "tag", ApiTag(api)))
  {
  }

  /** The settings read as a whole and list these clients. */
  predicate ListsClients(raw: Raw, clients: seq<Json>) {
    && Unmarshal(raw).Some? && Unmarshal(raw).value.Obj?
    && "clients" in Unmarshal(raw).value.fields && Unmarshal(raw).value.fields["clients"] == Arr(clients)
  }

  predicate SetsReverse(client: Json) {
    client.Obj? && "reverse" in client.fields && !client.fields["reverse"].Null?
  }

  /** An inbound carries a reverse client exactly when its settings list clients, each an object or null, and one of
      them has a reverse field that is set. */
  lemma ReverseReads(ib: InboundConfig, clients: seq<Json>)
    ensures ListsClients(ib.settings, clients) ==> (HasReverseClient(ib) <==> (
      && (forall i :: 0 <= i < |clients| ==> clients[i].Obj? || clients[i].Null?)
      && (exists i :: 0 <= i < |clients| && SetsReverse(clients[i]))))
    ensures HasReverseClient(ib) ==> exists list :: ListsClients(ib.settings, list)
  {
    if ListsClients(ib.settings, clients) && exists i :: 0 <= i < |clients| && SetsReverse(clients[i]) {
      var i :| 0 <= i < |clients| && SetsReverse(clients[i]);
      assert clients[i].fields["reverse"] != Null;
    }
    if HasReverseClient(ib) {
      assert ListsClients(ib.settings, Unmarshal(ib.settings).value.fields["clients"].items);
    }
  }

  /** The email of a client is the text of its email field. */
  lemma EmailReads(client: Json, email: string)
    requires email != ""
    ensures EmailOf(client) == email <==>
      client.Obj? && "email" in client.fields && client.fields["email"] == Str(email)
  {}

  /** An inbound can be sent when each of its sections is absent or reads as a whole. */
  lemma MarshalsExactly(ib: InboundConfig)
    ensures Marshals(ib) <==> (
      && (ib.listen == "" || Unmarshal(ib.listen).Some?)
      && (ib.settings == "" || Unmarshal(ib.settings).Some?)
      && (ib.streamSettings == "" || Unmarshal(ib.streamSettings).Some?)
      && (ib.sniffing == "" || Unmarshal(ib.sniffing).Some?))
  {
    var raws := [ib.listen, ib.settings, ib.streamSettings, ib.sniffing];
    if Marshals(ib) {
      assert raws[0] in raws && raws[1] in raws && raws[2] in raws && raws[3] in raws;
    }
  }

  lemma RealityReads(ib: InboundConfig)
    ensures UsesReality(ib) <==> Says(ib.streamSettings, "security", "reality")
  {
  }

  // ---------- what the diff holds ----------

  /** The handler of this inbound goes on under the new config. */
  ghost predicate GoesOn(a: InboundConfig, b: InboundConfig) {
    SameInbound(a, b) || ClientsOnly(a, b)
  }

  ghost predicate TakenDown(o: seq<InboundConfig>, n: seq<InboundConfig>, tag: string) {
    exists i :: 0 <= i < |o| && o[i].tag == tag && forall j :: 0 <= j < |n| ==> !GoesOn(o[i], n[j])
  }

  ghost predicate PutUp(o: seq<InboundConfig>, n: seq<InboundConfig>, b: InboundConfig) {
    b in n && forall i :: 0 <= i < |o| ==> !GoesOn(o[i], b)
  }

  /** The settings list this client under this email. */
  ghost predicate HasClient(settings: Raw, email: string, c: Json) {
    HasAddressedClients(settings) && c in Decode(settings).value.fields["clients"].items && EmailOf(c) == email
  }

  /** Client `c` of inbound `a` is not one of inbound `b`. */
  ghost predicate ClientApart(a: InboundConfig, b: InboundConfig, email: string, c: Json) {
    HasClient(a.settings, email, c) && !HasClient(b.settings, email, c)
  }

  ghost predicate UserLeaves(o: seq<InboundConfig>, n: seq<InboundConfig>, op: UserOp) {
    exists i, j, c ::
      && 0 <= i < |o| && 0 <= j < |n| && ClientsOnly(o[i], n[j]) && ClientApart(o[i], n[j], op.email, c)
      && op == UserOp(o[i].tag, o[i].protocol, op.email, None)
  }

  ghost predicate UserJoins(o: seq<InboundConfig>, n: seq<InboundConfig>, op: UserOp) {
    exists i, j, c ::
      && 0 <= i < |o| && 0 <= j < |n| && ClientsOnly(o[i], n[j]) && ClientApart(n[j], o[i], op.email, c)
      && op == UserOp(o[i].tag, o[i].protocol, op.email, Some(c))
  }

  ghost predicate OutboundLeaves(a: seq<Json>, b: seq<Json>, tag: string) {
    exists v :: v in a && v !in b && Named(v) && NameOf(v) == tag
  }

  ghost predicate Distinct<T>(s: seq<T>) {
    forall i, j :: 0 <= i < j < |s| ==> s[i] != s[j]
  }

  /** The inbound and user operations are those the two lists call for, each once. */
  ghost predicate InboundsTold(d: Ops, o: seq<InboundConfig>, n: seq<InboundConfig>) {
    && (forall t :: t in d.removedInbounds <==> TakenDown(o, n, t))
    && (forall ib :: ib in d.addedInbounds <==> PutUp(o, n, ib))
    && (forall op :: op in d.removedUsers <==> UserLeaves(o, n, op))
    && (forall op :: op in d.addedUsers <==> UserJoins(o, n, op))
    && Distinct(d.removedInbounds) && Distinct(d.addedInbounds) && Distinct(d.removedUsers) && Distinct(d.addedUsers)
  }

  ghost predicate OutboundsTold(d: Ops, a: seq<Json>, b: seq<Json>) {
    && (forall t :: t in d.removedOutbounds <==> OutboundLeaves(a, b, t))
    && (forall v :: v in d.addedOutbounds <==> v in b && v !in a)
    && Distinct(d.removedOutbounds) && Distinct(d.addedOutbounds)
  }

  lemma AppendedToNothing<T(!new)>(list: seq<T>, s: set<T>)
    ensures Appended([], list, s) <==> (forall x :: x in list <==> x in s) && Distinct(list)
  {
    assert list[0..] == list;
  }

  lemma OnlyPartner(a: InboundConfig, n: seq<InboundConfig>, j: nat)
    requires TagsOk(n) && j < |n| && n[j].tag == a.tag
    ensures (exists k :: 0 <= k < |n| && GoesOn(a, n[k])) <==> GoesOn(a, n[j])
  {
    if k :| 0 <= k < |n| && GoesOn(a, n[k]) { OneUnderTag(n, j); }
  }

  lemma RemovedTold(o: seq<InboundConfig>, n: seq<InboundConfig>, apiTag: string, i: nat)
    requires InboundsReloadable(o, n, apiTag) && i < |o|
    ensures Judge(o[i], ByTag(n), apiTag) in {Replace, Drop} <==> forall j :: 0 <= j < |n| ==> !GoesOn(o[i], n[j])
  {
    ListedIs(n, o[i].tag);
    if Listed(o[i].tag, n) {
      var j :| 0 <= j < |n| && n[j].tag == o[i].tag;
      OneUnderTag(n, j);
      OnlyPartner(o[i], n, j);
      JudgedChange(o[i], n[j], ByTag(n), apiTag);
      assert Judge(o[i], ByTag(n), apiTag) in {Replace, Drop} <==> !GoesOn(o[i], n[j]);
    }
  }

  lemma TakenDownIs(o: seq<InboundConfig>, n: seq<InboundConfig>, apiTag: string, t: string)
    requires InboundsReloadable(o, n, apiTag)
    ensures t in Removed(o, ByTag(n), apiTag) <==> TakenDown(o, n, t)
  {
    forall i: nat | i < |o|
      ensures Judge(o[i], ByTag(n), apiTag) in {Replace, Drop} <==> forall j :: 0 <= j < |n| ==> !GoesOn(o[i], n[j])
    {
      RemovedTold(o, n, apiTag, i);
    }
    if TakenDown(o, n, t) {
      var i :| 0 <= i < |o| && o[i].tag == t && forall j :: 0 <= j < |n| ==> !GoesOn(o[i], n[j]);
      assert Judge(o[i], ByTag(n), apiTag) in {Replace, Drop};
    }
  }

  lemma PartnerOf(o: seq<InboundConfig>, n: seq<InboundConfig>, i: nat, j: nat, apiTag: string)
    requires InboundsReloadable(o, n, apiTag) && i < |o| && j < |n| && o[i].tag == n[j].tag
    ensures n[j].tag in ByTag(o)
    ensures Verdicts(o, ByTag(n), apiTag)[n[j].tag] == Replace <==> !GoesOn(o[i], n[j])
    ensures (exists k :: 0 <= k < |o| && GoesOn(o[k], n[j])) <==> GoesOn(o[i], n[j])
  {
    OneUnderTag(o, i);
    OneUnderTag(n, j);
    JudgedChange(o[i], n[j], ByTag(n), apiTag);
  }

  lemma PutUpIs(o: seq<InboundConfig>, n: seq<InboundConfig>, apiTag: string, b: InboundConfig)
    requires InboundsReloadable(o, n, apiTag)
    ensures b in Readded(o, ByTag(n), apiTag) + Novel(n, ByTag(o)) <==> PutUp(o, n, b)
  {
    ByTagTags(n);
    ReaddedIs(o, ByTag(n), apiTag, b);
    NovelIs(n, ByTag(o), b);
    UnderItsTag(n, b);
    if b in n {
      var j :| 0 <= j < |n| && n[j] == b;
      ListedIs(o, b.tag);
      if Listed(b.tag, o) {
        var i :| 0 <= i < |o| && o[i].tag == b.tag;
        PartnerOf(o, n, i, j, apiTag);
      }
    }
  }

  lemma UnderItsTag(n: seq<InboundConfig>, b: InboundConfig)
    requires TagsOk(n)
    ensures b.tag in ByTag(n) && ByTag(n)[b.tag] == b <==> b in n
  {
    if b in n {
      var j :| 0 <= j < |n| && n[j] == b;
      OneUnderTag(n, j);
    }
    if b.tag in ByTag(n) { ByTagKeys(n, b.tag); }
  }

  lemma ClientIs(ib: InboundConfig, e: string, c: Json)
    requires HasAddressedClients(ib.settings)
    ensures HasClient(ib.settings, e, c) <==> e in Users(ib) && Users(ib)[e] == c
  {
    var clients := Decode(ib.settings).value.fields["clients"].items;
    SplitIsAddressed(ib.settings);
    IndexClientsExactly(clients);
    if HasClient(ib.settings, e, c) { var i :| 0 <= i < |clients| && clients[i] == c; }
  }

  /** The clients of `a` that `b` does not have, by email. */
  lemma ApartIs(a: InboundConfig, b: InboundConfig, e: string, c: Json)
    requires HasAddressedClients(a.settings) && HasAddressedClients(b.settings)
    ensures ClientApart(a, b, e, c) <==> e in Users(a) && Users(a)[e] == c && (e !in Users(b) || Users(b)[e] != c)
  {
    ClientIs(a, e, c);
    ClientIs(b, e, c);
  }

  /** What one inbound and its partner call for. */
  ghost predicate OpBetween(a: InboundConfig, b: InboundConfig, adding: bool, op: UserOp) {
    && ClientsOnly(a, b) && op.tag == a.tag && op.protocol == a.protocol
    && if adding then op.user.Some? && ClientApart(b, a, op.email, op.user.value)
       else op.user.None? && exists c :: ClientApart(a, b, op.email, c)
  }

  lemma NothingBetweenSame(a: InboundConfig, b: InboundConfig, e: string, c: Json)
    requires SameInbound(a, b) && ClientsOnly(a, b)
    ensures !ClientApart(a, b, e, c) && !ClientApart(b, a, e, c)
  {
    SameMeaningSameSplit(a.settings, b.settings);
    ApartIs(a, b, e, c);
    ApartIs(b, a, e, c);
  }

  /** Once nothing is refused, users change one by one exactly when the inbounds differ, and in clients alone. */
  lemma JudgedUsers(a: InboundConfig, b: InboundConfig, byTag: map<string, InboundConfig>, apiTag: string)
    requires a.tag in byTag && byTag[a.tag] == b && Judge(a, byTag, apiTag) != Refuse
    ensures Judge(a, byTag, apiTag) == UserOps <==> ClientsOnly(a, b) && !SameInbound(a, b)
  {
    JudgedChange(a, b, byTag, apiTag);
  }

  lemma RemovalBetween(a: InboundConfig, b: InboundConfig, op: UserOp)
    requires ClientsOnly(a, b) && !SameInbound(a, b) && op.tag == a.tag && op.protocol == a.protocol
    ensures OpBetween(a, b, false, op) <==>
      op.email in Users(a) && (op.email !in Users(b) || Users(b)[op.email] != Users(a)[op.email]) && op.user == None
  {
    var e := op.email;
    if e in Users(a) { ApartIs(a, b, e, Users(a)[e]); }
    if c :| ClientApart(a, b, e, c) { ApartIs(a, b, e, c); }
  }

  lemma AdditionBetween(a: InboundConfig, b: InboundConfig, op: UserOp)
    requires ClientsOnly(a, b) && !SameInbound(a, b) && op.tag == a.tag && op.protocol == a.protocol
    ensures OpBetween(a, b, true, op) <==>
      op.email in Users(b) && (op.email !in Users(a) || Users(b)[op.email] != Users(a)[op.email])
      && op.user == Some(Users(b)[op.email])
  {
    if op.user.Some? { ApartIs(b, a, op.email, op.user.value); }
  }

  lemma NoOpBetweenSame(a: InboundConfig, b: InboundConfig, adding: bool, op: UserOp)
    requires SameInbound(a, b)
    ensures !OpBetween(a, b, adding, op)
  {
    if ClientsOnly(a, b) {
      forall c ensures !ClientApart(a, b, op.email, c) && !ClientApart(b, a, op.email, c) {
        NothingBetweenSame(a, b, op.email, c);
      }
    }
  }

  lemma OpBetweenIs(a: InboundConfig, b: InboundConfig, byTag: map<string, InboundConfig>, apiTag: string, adding: bool,
                    op: UserOp)
    requires a.tag in byTag && byTag[a.tag] == b && op.tag == a.tag && Judge(a, byTag, apiTag) != Refuse
    ensures op in UserOpsAt(a, byTag, apiTag, adding) <==> OpBetween(a, b, adding, op)
  {
    UserOpAtIs(a, byTag, apiTag, adding, op);
    JudgedUsers(a, b, byTag, apiTag);
    if SameInbound(a, b) {
      NoOpBetweenSame(a, b, adding, op);
    } else if ClientsOnly(a, b) && op.protocol == a.protocol {
      if adding { AdditionBetween(a, b, op); } else { RemovalBetween(a, b, op); }
    }
  }

  /** Some inbound and its partner call for the operation. */
  ghost predicate OpCalledFor(o: seq<InboundConfig>, n: seq<InboundConfig>, adding: bool, op: UserOp) {
    exists i, j :: 0 <= i < |o| && 0 <= j < |n| && OpBetween(o[i], n[j], adding, op)
  }

  lemma OpCalledForIs(o: seq<InboundConfig>, n: seq<InboundConfig>, apiTag: string, adding: bool, op: UserOp)
    requires InboundsReloadable(o, n, apiTag)
    ensures op in UserOpsFor(o, ByTag(n), apiTag, adding) <==> OpCalledFor(o, n, adding, op)
  {
    if op in UserOpsFor(o, ByTag(n), apiTag, adding) {
      var i := UserOpOrigin(o, ByTag(n), apiTag, adding, op);
      OpHasPartner(o, n, apiTag, adding, op, i);
    }
    if OpCalledFor(o, n, adding, op) {
      var i, j :| 0 <= i < |o| && 0 <= j < |n| && OpBetween(o[i], n[j], adding, op);
      OneUnderTag(n, j);
      OpBetweenIs(o[i], n[j], ByTag(n), apiTag, adding, op);
      UserOpListed(o, ByTag(n), apiTag, adding, op, i);
    }
  }

  lemma OpHasPartner(o: seq<InboundConfig>, n: seq<InboundConfig>, apiTag: string, adding: bool, op: UserOp, i: nat)
    requires InboundsReloadable(o, n, apiTag) && i < |o| && op in UserOpsAt(o[i], ByTag(n), apiTag, adding)
    ensures OpCalledFor(o, n, adding, op)
  {
    JudgedUserOps(o[i], ByTag(n), apiTag);
    ListedIs(n, o[i].tag);
    var j :| 0 <= j < |n| && n[j].tag == o[i].tag;
    OneUnderTag(n, j);
    assert op.tag == o[i].tag;
    OpBetweenIs(o[i], n[j], ByTag(n), apiTag, adding, op);
  }

  lemma LeavesIs(o: seq<InboundConfig>, n: seq<InboundConfig>, op: UserOp)
    ensures UserLeaves(o, n, op) <==> OpCalledFor(o, n, false, op)
  {
    if OpCalledFor(o, n, false, op) {
      var i, j :| 0 <= i < |o| && 0 <= j < |n| && OpBetween(o[i], n[j], false, op);
      var c :| ClientApart(o[i], n[j], op.email, c);
      assert op == UserOp(o[i].tag, o[i].protocol, op.email, None);
    }
    if UserLeaves(o, n, op) {
      var i, j, c :| 0 <= i < |o| && 0 <= j < |n| && ClientsOnly(o[i], n[j]) && ClientApart(o[i], n[j], op.email, c)
        && op == UserOp(o[i].tag, o[i].protocol, op.email, None);
      assert OpBetween(o[i], n[j], false, op);
    }
  }

  lemma JoinsHere(o: seq<InboundConfig>, n: seq<InboundConfig>, op: UserOp, i: nat, j: nat)
    requires i < |o| && j < |n| && OpBetween(o[i], n[j], true, op)
    ensures UserJoins(o, n, op)
  {
    var c := op.user.value;
    assert ClientApart(n[j], o[i], op.email, c) && op == UserOp(o[i].tag, o[i].protocol, op.email, Some(c));
  }

  lemma JoinsIs(o: seq<InboundConfig>, n: seq<InboundConfig>, op: UserOp)
    ensures UserJoins(o, n, op) <==> OpCalledFor(o, n, true, op)
  {
    if OpCalledFor(o, n, true, op) {
      var i, j :| 0 <= i < |o| && 0 <= j < |n| && OpBetween(o[i], n[j], true, op);
      JoinsHere(o, n, op, i, j);
    }
    if UserJoins(o, n, op) {
      var i, j, c :| 0 <= i < |o| && 0 <= j < |n| && ClientsOnly(o[i], n[j]) && ClientApart(n[j], o[i], op.email, c)
        && op == UserOp(o[i].tag, o[i].protocol, op.email, Some(c));
      assert OpBetween(o[i], n[j], true, op);
    }
  }

  lemma HandlersTold(o: seq<InboundConfig>, n: seq<InboundConfig>, apiTag: string)
    requires InboundsReloadable(o, n, apiTag)
    ensures forall t :: t in Removed(o, ByTag(n), apiTag) <==> TakenDown(o, n, t)
    ensures forall b :: b in Readded(o, ByTag(n), apiTag) + Novel(n, ByTag(o)) <==> PutUp(o, n, b)
  {
    forall t ensures t in Removed(o, ByTag(n), apiTag) <==> TakenDown(o, n, t) { TakenDownIs(o, n, apiTag, t); }
    forall b ensures b in Readded(o, ByTag(n), apiTag) + Novel(n, ByTag(o)) <==> PutUp(o, n, b) {
      PutUpIs(o, n, apiTag, b);
    }
  }

  lemma UsersTold(o: seq<InboundConfig>, n: seq<InboundConfig>, apiTag: string)
    requires InboundsReloadable(o, n, apiTag)
    ensures forall op :: op in UserOpsFor(o, ByTag(n), apiTag, false) <==> UserLeaves(o, n, op)
    ensures forall op :: op in UserOpsFor(o, ByTag(n), apiTag, true) <==> UserJoins(o, n, op)
  {
    forall op ensures op in UserOpsFor(o, ByTag(n), apiTag, false) <==> UserLeaves(o, n, op) {
      OpCalledForIs(o, n, apiTag, false, op);
      LeavesIs(o, n, op);
    }
    forall op ensures op in UserOpsFor(o, ByTag(n), apiTag, true) <==> UserJoins(o, n, op) {
      OpCalledForIs(o, n, apiTag, true, op);
      JoinsIs(o, n, op);
    }
  }

  lemma InboundOpsTold(o: seq<InboundConfig>, n: seq<InboundConfig>, apiTag: string, d: Ops)
    requires InboundsReloadable(o, n, apiTag)
    ensures InboundOps(NO_OPS, d, o, n, apiTag) <==> InboundsTold(d, o, n)
  {
    AppendedToNothing(d.removedInbounds, Removed(o, ByTag(n), apiTag));
    AppendedToNothing(d.addedInbounds, Readded(o, ByTag(n), apiTag) + Novel(n, ByTag(o)));
    AppendedToNothing(d.removedUsers, UserOpsFor(o, ByTag(n), apiTag, false));
    AppendedToNothing(d.addedUsers, UserOpsFor(o, ByTag(n), apiTag, true));
    HandlersTold(o, n, apiTag);
    UsersTold(o, n, apiTag);
  }

  lemma OutboundLeavesIs(a: seq<Json>, b: seq<Json>, t: string)
    requires OutboundsOk(a)
    ensures t in Gone(a, b) <==> OutboundLeaves(a, b, t)
  {
    AllNamedIs(a);
    forall v | v in a ensures Named(v) && TagOf(v) == NameOf(v) { NamedIs(v); }
  }

  lemma OutboundOpsTold(a: seq<Json>, b: seq<Json>, d: Ops)
    requires OutboundsOk(a)
    ensures OutboundOps(NO_OPS, d, a, b) <==> OutboundsTold(d, a, b)
  {
    AppendedToNothing(d.removedOutbounds, Gone(a, b));
    AppendedToNothing(d.addedOutbounds, Swapped(a, b) + Unseen(a, b));
    forall t ensures t in Gone(a, b) <==> OutboundLeaves(a, b, t) { OutboundLeavesIs(a, b, t); }
    forall v ensures v in Swapped(a, b) + Unseen(a, b) <==> v in b && v !in a { AddedOutboundIs(a, b, v); }
  }

  /** The diff of a change that can be applied live holds exactly these operations, each once: the inbounds that do not
      go on come down and the new ones that continue none go up, clients change on inbounds that differ in clients
      alone, outbounds by their content, and the routing when its text differs. */
  lemma DiffExactly(o: Config, n: Config, d: Ops, a: seq<Json>, b: seq<Json>)
    requires Reloadable(o, n) && Lists(o.outbounds, a) && Lists(n.outbounds, b)
    ensures Describes(d, o, n) <==>
      && InboundsTold(d, o.inbounds, n.inbounds)
      && OutboundsTold(d, a, b)
      && d.routing == if o.routing == n.routing then None else Some(n.routing)
  {
    ListedAre(o.outbounds, a);
    ListedAre(n.outbounds, b);
    InboundOpsTold(o.inbounds, n.inbounds, ApiTag(n.api), d);
    OutboundOpsTold(a, b, d);
  }

  lemma ListedAre(raw: Raw, items: seq<Json>)
    requires Outbounds(raw).Some? && Lists(raw, items)
    ensures Outbounds(raw) == Some(items) && OutboundsOk(items)
  {
    ListedOutbounds(raw, Outbounds(raw).value);
    OutboundsAreOk(raw);
  }

  // ---------- what a core serves ----------

  /** A field of a client that is set: there, and not the zero of its kind. */
  function SetField(m: map<string, Json>, k: string): Option<Json> {
    if k in m && m[k] !in {Null, Bool(false), Num("0"), Str("")} then Some(m[k]) else None
  }

  ghost predicate ServedAlike(c: Json, d: Json)
    requires c.Obj? && d.Obj?
  {
    forall k :: SetField(c.fields, k) == SetField(d.fields, k)
  }

  lemma ServedAlikeIs(c: Json, d: Json)
    requires c.Obj? && d.Obj?
    ensures Served(c) == Served(d) <==> ServedAlike(c, d)
  {
    var (x, y) := (NonZero(c.fields), NonZero(d.fields));
    forall k ensures SetField(c.fields, k) == if k in x then Some(x[k]) else None {}
    forall k ensures SetField(d.fields, k) == if k in y then Some(y[k]) else None {}
    if ServedAlike(c, d) {
      forall k ensures (k in x <==> k in y) && (k in x ==> x[k] == y[k]) {
        assert SetField(c.fields, k) == SetField(d.fields, k);
      }
      assert x == y;
    }
  }

  /** Under this email the two settings list clients that are served alike, or none. */
  ghost predicate SameClient(a: Raw, b: Raw, e: string) {
    && ((exists c :: HasClient(a, e, c)) <==> (exists d :: HasClient(b, e, d)))
    && forall c, d :: HasClient(a, e, c) && HasClient(b, e, d) ==> c.Obj? && d.Obj? && ServedAlike(c, d)
  }

  /** Settings with addressable clients are compared client by client, others as a whole. */
  ghost predicate SameSettings(a: Raw, b: Raw) {
    if HasAddressedClients(a) && HasAddressedClients(b)
    then AlikeButClients(a, b) && forall e :: SameClient(a, b, e)
    else !HasAddressedClients(a) && !HasAddressedClients(b) && Meaning(a) == Meaning(b)
  }

  lemma ClientTableIs(a: InboundConfig, b: InboundConfig, e: string)
    requires HasAddressedClients(a.settings) && HasAddressedClients(b.settings)
    ensures SameClient(a.settings, b.settings, e) <==>
      && (e in Users(a) <==> e in Users(b))
      && (e in Users(a) && e in Users(b) ==> Served(Users(a)[e]) == Served(Users(b)[e]))
  {
    forall c ensures HasClient(a.settings, e, c) <==> e in Users(a) && Users(a)[e] == c { ClientIs(a, e, c); }
    forall c ensures HasClient(b.settings, e, c) <==> e in Users(b) && Users(b)[e] == c { ClientIs(b, e, c); }
    SplitIsAddressed(a.settings);
    SplitIsAddressed(b.settings);
    if e in Users(a) {
      SplitUsers(a.settings, e);
      assert HasClient(a.settings, e, Users(a)[e]);
    }
    if e in Users(b) {
      SplitUsers(b.settings, e);
      assert HasClient(b.settings, e, Users(b)[e]);
    }
    if e in Users(a) && e in Users(b) { ServedAlikeIs(Users(a)[e], Users(b)[e]); }
  }

  lemma SameTables(a: InboundConfig, b: InboundConfig)
    requires HasAddressedClients(a.settings) && HasAddressedClients(b.settings)
    ensures ServedTable(Users(a)) == ServedTable(Users(b)) <==> forall e :: SameClient(a.settings, b.settings, e)
  {
    var (x, y) := (ServedTable(Users(a)), ServedTable(Users(b)));
    forall e
      ensures SameClient(a.settings, b.settings, e) <==> (e in x <==> e in y) && (e in x && e in y ==> x[e] == y[e])
    {
      ClientTableIs(a, b, e);
    }
    if forall e :: SameClient(a.settings, b.settings, e) {
      forall e ensures (e in x <==> e in y) && (e in x && e in y ==> x[e] == y[e]) {
        assert SameClient(a.settings, b.settings, e);
      }
      assert x == y;
    }
  }

  /** What a handler and its users show of an inbound. */
  lemma ServedInbound(a: InboundConfig, b: InboundConfig)
    requires a.tag == b.tag
    ensures FrameOf(a) == FrameOf(b) && ServedTable(Users(a)) == ServedTable(Users(b)) <==>
      SameButSettings(a, b) && SameSettings(a.settings, b.settings)
  {
    SplitIsAddressed(a.settings);
    SplitIsAddressed(b.settings);
    if HasAddressedClients(a.settings) && HasAddressedClients(b.settings) {
      SameTables(a, b);
      RestAlike(Decode(a.settings).value.fields, Decode(b.settings).value.fields, {"clients"});
    }
  }

  ghost predicate SameInbounds(o: seq<InboundConfig>, n: seq<InboundConfig>) {
    && (forall t :: Listed(t, o) <==> Listed(t, n))
    && forall i, j :: 0 <= i < |o| && 0 <= j < |n| && o[i].tag == n[j].tag ==>
        SameButSettings(o[i], n[j]) && SameSettings(o[i].settings, n[j].settings)
  }

  lemma TablesUnder(o: seq<InboundConfig>, n: seq<InboundConfig>, i: nat, j: nat)
    requires TagsOk(o) && TagsOk(n) && i < |o| && j < |n| && o[i].tag == n[j].tag
    ensures o[i].tag in Frames(ByTag(o)) && n[j].tag in Frames(ByTag(n))
    ensures o[i].tag in ServedUsers(UsersByTag(ByTag(o))) && n[j].tag in ServedUsers(UsersByTag(ByTag(n)))
    ensures Frames(ByTag(o))[o[i].tag] == Frames(ByTag(n))[n[j].tag]
            && ServedUsers(UsersByTag(ByTag(o)))[o[i].tag] == ServedUsers(UsersByTag(ByTag(n)))[n[j].tag]
      <==> SameButSettings(o[i], n[j]) && SameSettings(o[i].settings, n[j].settings)
  {
    OneUnderTag(o, i);
    OneUnderTag(n, j);
    ServedInbound(o[i], n[j]);
  }

  lemma ServedUnder(o: seq<InboundConfig>, n: seq<InboundConfig>, t: string)
    requires TagsOk(o) && TagsOk(n) && SameInbounds(o, n)
    ensures t in ByTag(o) <==> t in ByTag(n)
    ensures t in ByTag(o) ==> FrameOf(ByTag(o)[t]) == FrameOf(ByTag(n)[t])
    ensures t in ByTag(o) ==> ServedTable(Users(ByTag(o)[t])) == ServedTable(Users(ByTag(n)[t]))
  {
    ListedIs(o, t);
    ListedIs(n, t);
    if t in ByTag(o) {
      var i :| 0 <= i < |o| && o[i].tag == t;
      var j :| 0 <= j < |n| && n[j].tag == t;
      OneUnderTag(o, i);
      OneUnderTag(n, j);
      ServedInbound(o[i], n[j]);
    }
  }

  lemma FramesAlike(x: map<string, InboundConfig>, y: map<string, InboundConfig>)
    requires x.Keys == y.Keys && forall t :: t in x ==> FrameOf(x[t]) == FrameOf(y[t])
    ensures Frames(x) == Frames(y)
  {
  }

  lemma UserTablesAlike(x: map<string, InboundConfig>, y: map<string, InboundConfig>)
    requires x.Keys == y.Keys && forall t :: t in x ==> ServedTable(Users(x[t])) == ServedTable(Users(y[t]))
    ensures ServedUsers(UsersByTag(x)) == ServedUsers(UsersByTag(y))
  {
    var (p, q) := (ServedUsers(UsersByTag(x)), ServedUsers(UsersByTag(y)));
    assert p.Keys == x.Keys && q.Keys == y.Keys;
    forall t | t in p ensures p[t] == q[t] {
      assert p[t] == ServedTable(Users(x[t])) && q[t] == ServedTable(Users(y[t]));
    }
  }

  lemma InboundsServedAlike(o: seq<InboundConfig>, n: seq<InboundConfig>)
    requires TagsOk(o) && TagsOk(n) && SameInbounds(o, n)
    ensures Frames(ByTag(o)) == Frames(ByTag(n))
    ensures ServedUsers(UsersByTag(ByTag(o))) == ServedUsers(UsersByTag(ByTag(n)))
  {
    forall t
      ensures t in ByTag(o) <==> t in ByTag(n)
      ensures t in ByTag(o) ==> FrameOf(ByTag(o)[t]) == FrameOf(ByTag(n)[t])
      ensures t in ByTag(o) ==> ServedTable(Users(ByTag(o)[t])) == ServedTable(Users(ByTag(n)[t]))
    {
      ServedUnder(o, n, t);
    }
    assert ByTag(o).Keys == ByTag(n).Keys;
    FramesAlike(ByTag(o), ByTag(n));
    UserTablesAlike(ByTag(o), ByTag(n));
  }

  lemma ServedAlikeInbounds(o: seq<InboundConfig>, n: seq<InboundConfig>)
    requires TagsOk(o) && TagsOk(n) && Frames(ByTag(o)) == Frames(ByTag(n))
    requires ServedUsers(UsersByTag(ByTag(o))) == ServedUsers(UsersByTag(ByTag(n)))
    ensures SameInbounds(o, n)
  {
    forall t ensures Listed(t, o) <==> Listed(t, n) {
      ListedIs(o, t);
      ListedIs(n, t);
      assert t in ByTag(o) <==> t in Frames(ByTag(o));
      assert t in ByTag(n) <==> t in Frames(ByTag(n));
    }
    forall i, j | 0 <= i < |o| && 0 <= j < |n| && o[i].tag == n[j].tag
      ensures SameButSettings(o[i], n[j]) && SameSettings(o[i].settings, n[j].settings)
    {
      TablesUnder(o, n, i, j);
    }
  }

  /** The same text, or a readable section of the same meaning. */
  predicate SameRouting(o: Raw, n: Raw) {
    || o == n
    || (o != "" && n != "" && Decode(o) == Decode(n) && Decode(o).Some?
        && (Decode(o).value.Null? || Decode(o).value.Obj?))
  }

  lemma WholeAgain(x: map<string, Json>, y: map<string, Json>)
    requires x - {"rules", "balancers"} == y - {"rules", "balancers"}
    requires Field(x, "rules") == Field(y, "rules") && Field(x, "balancers") == Field(y, "balancers")
    ensures x == y
  {
    RestAlike(x, y, {"rules", "balancers"});
    forall k ensures (k in x <==> k in y) && (k in x ==> x[k] == y[k]) {
      if k !in {"rules", "balancers"} { assert AlikeBut(x, y, {"rules", "balancers"}); }
    }
  }

  lemma SameRoutingIs(o: Raw, n: Raw)
    ensures RouterOf(o) == RouterOf(n) <==> SameRouting(o, n)
  {
    if RouterOf(o) == RouterOf(n) && o != "" && n != "" {
      if Decode(o).Some? && Decode(o).value.Obj? && Decode(n).Some? && Decode(n).value.Obj? {
        WholeAgain(Decode(o).value.fields, Decode(n).value.fields);
      }
    }
  }

  lemma SectionsServed(o: Config, n: Config)
    ensures Boot(o).statics == Boot(n).statics <==> SectionsAgree(o, n, Meaning)
  {
  }

  /** Inbounds are served alike exactly when they are the same by tag, up to what of their clients is not set. */
  lemma InboundsServed(o: seq<InboundConfig>, n: seq<InboundConfig>)
    requires TagsOk(o) && TagsOk(n)
    ensures SameInbounds(o, n) <==>
      && Frames(ByTag(o)) == Frames(ByTag(n))
      && ServedUsers(UsersByTag(ByTag(o))) == ServedUsers(UsersByTag(ByTag(n)))
  {
    if SameInbounds(o, n) {
      InboundsServedAlike(o, n);
    } else if Frames(ByTag(o)) == Frames(ByTag(n))
           && ServedUsers(UsersByTag(ByTag(o))) == ServedUsers(UsersByTag(ByTag(n))) {
      ServedAlikeInbounds(o, n);
    }
  }

  lemma SameOutbounds(a: seq<Json>, b: seq<Json>)
    requires multiset(a) == multiset(b)
    ensures SameFirst(a, b) <==> (|a| > 0 ==> a[0] == b[0])
  {
    assert |multiset(a)| == |a| && |multiset(b)| == |b|;
  }

  /** Two configs are served alike exactly when all of this is the same: the thirteen sections, the inbounds by tag with
      their clients by email, the outbounds with their first, and the routing. */
  lemma SameServiceExactly(o: Config, n: Config, a: seq<Json>, b: seq<Json>)
    requires TagsOk(o.inbounds) && TagsOk(n.inbounds)
    requires Outbounds(o.outbounds) == Some(a) && Outbounds(n.outbounds) == Some(b)
    ensures SameService(Boot(o), Boot(n)) <==>
      && SectionsAgree(o, n, Meaning)
      && SameInbounds(o.inbounds, n.inbounds)
      && multiset(a) == multiset(b) && SameFirst(a, b)
      && SameRouting(o.routing, n.routing)
  {
    SectionsServed(o, n);
    InboundsServed(o.inbounds, n.inbounds);
    SameRoutingIs(o.routing, n.routing);
    if multiset(a) == multiset(b) { SameOutbounds(a, b); }
  }
}
