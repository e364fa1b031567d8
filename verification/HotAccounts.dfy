/** The account the panel builds for a user it adds to a running inbound: of all a client's settings, only what the
    account of its protocol holds reaches the core. */
module HotAccounts {
  import opened Json
  import opened Options

  type Fields = map<string, Json>

  /** A user field that must be a string. */
  function RequiredUserString(m: Fields, key: string): Option<string> {
    if key in m && m[key].Str? then Some(m[key].s) else None
  }

  /** A user field that may be absent or null, and otherwise must be a string. */
  function OptionalUserString(m: Fields, key: string): Option<string> {
    if key !in m || m[key].Null? then Some("")
    else if m[key].Str? then Some(m[key].s)
    else None
  }

  /** The accounts of the protocols whose users are diffed. */
  datatype Account = Vmess(id: string) | Vless(id: string, flow: string, testseed: seq<nat>) | Trojan(password: string)

  /** Four seeds or more are taken over; but a number decoded with its digits is no float64, and each seed stays 0. For
      the same reason testpre is never taken over. */
  function Testseed(m: Fields): seq<nat> {
    if "testseed" in m && m["testseed"].Arr? && |m["testseed"].items| >= 4
    then seq(|m["testseed"].items|, _ => 0) else []
  }

  /** buildUserAccount; None is an error. Other protocols are not diffed and not part of this model. */
  function BuildUserAccount(protocol: string, m: Fields): Option<Account> {
    if protocol == "vmess" then
      match RequiredUserString(m, "id")
      case None => None
      case Some(id) => Some(Vmess(id))
    else if protocol == "vless" then
      match (RequiredUserString(m, "id"), OptionalUserString(m, "flow"))
      case (Some(id), Some(flow)) => Some(Vless(id, flow, Testseed(m)))
      case _ => None
    else if protocol == "trojan" then
      match RequiredUserString(m, "password")
      case None => None
      case Some(password) => Some(Trojan(password))
    else None
  }

  // ---------- what the core serves ----------

  /** A field that reads like an absent one, as decoding into typed fields leaves their zero value either way. */
  predicate Zero(v: Json) {
    v in {Null, Bool(false), Num("0"), Str("")}
  }

  function NonZero(m: Fields): Fields {
    map k | k in m && !Zero(m[k]) :: m[k]
  }

  /** A client of the config, as the core serves it. */
  function Served(client: Json): Json {
    if client.Obj? then Obj(NonZero(client.fields)) else client
  }

  function Zeros(n: nat): Json {
    Arr(seq(n, _ => Num("0")))
  }

  /** A user added at run time, as the core serves it: its email and its account, in the words of the config. */
  function AccountFields(email: string, a: Account): Fields {
    match a
    case Vmess(id) => map["email" := Str(email), "id" := Str(id)]
    case Vless(id, flow, seed) =>
      map["email" := Str(email), "id" := Str(id), "flow" := Str(flow)]
      + if seed == [] then map[] else map["testseed" := Zeros(|seed|)]
    case Trojan(password) => map["email" := Str(email), "password" := Str(password)]
  }

  /** AddUser's request for a client; None when the client cannot be turned into an account. */
  function Forwarded(protocol: string, client: Json): Option<Json> {
    if !client.Obj? then None else
      match (RequiredUserString(client.fields, "email"), BuildUserAccount(protocol, client.fields))
      case (Some(email), Some(account)) => Some(Served(Obj(AccountFields(email, account))))
      case _ => None
  }

  // ---------- which clients are carried whole ----------

  /** Nothing of the client is set beyond these fields. */
  predicate OnlyFields(m: Fields, names: set<string>) {
    forall k :: k in m && k !in names ==> Zero(m[k])
  }

  /** A seed list that is what the account makes of any: at least four zeros. */
  predicate ZeroSeed(v: Json) {
    v.Arr? && |v.items| >= 4 && v == Zeros(|v.items|)
  }

  /** The client has a text under this key. */
  predicate HasText(m: Fields, key: string) {
    key in m && m[key].Str?
  }

  /** The client has a text under this key, or nothing or null. */
  predicate TextOrNothing(m: Fields, key: string) {
    key in m ==> m[key].Str? || m[key].Null?
  }

  /** Before any call: the client has what its account requires, and nothing its account drops or changes. */
  predicate Carried(protocol: string, m: Fields) {
    if protocol == "vmess" then HasText(m, "id") && OnlyFields(m, {"email", "id"})
    else if protocol == "vless" then
      && HasText(m, "id") && TextOrNothing(m, "flow")
      && OnlyFields(m, {"email", "id", "flow", "testseed"})
      && ("testseed" in m ==> Zero(m["testseed"]) || ZeroSeed(m["testseed"]))
    else protocol == "trojan" && HasText(m, "password") && OnlyFields(m, {"email", "password"})
  }

  lemma PlainAccountCarried(m: Fields, key: string)
    requires "email" in m && m["email"].Str? && key in m && m[key].Str?
    ensures NonZero(map["email" := m["email"], key := m[key]]) == NonZero(m) <==> OnlyFields(m, {"email", key})
  {
    var small := map["email" := m["email"], key := m[key]];
    if NonZero(small) == NonZero(m) {
      forall k | k in m && k !in {"email", key} ensures Zero(m[k]) {
        assert k !in NonZero(small);
      }
    }
  }

  /** The two are served alike under this key. */
  predicate AlikeAt(a: Fields, b: Fields, k: string) {
    && (k in NonZero(a) <==> k in NonZero(b))
    && (k in NonZero(a) ==> NonZero(a)[k] == NonZero(b)[k])
  }

  lemma AlikeEverywhere(a: Fields, b: Fields)
    ensures NonZero(a) == NonZero(b) <==> forall k :: AlikeAt(a, b, k)
  {
    if forall k :: AlikeAt(a, b, k) {
      forall k ensures k in NonZero(a) <==> k in NonZero(b) { assert AlikeAt(a, b, k); }
      forall k | k in NonZero(a) ensures NonZero(a)[k] == NonZero(b)[k] { assert AlikeAt(a, b, k); }
    }
  }

  lemma BeyondNames(fields: Fields, m: Fields, names: set<string>)
    requires fields.Keys <= names
    ensures OnlyFields(m, names) <==> forall k :: k !in names ==> AlikeAt(fields, m, k)
  {
    forall k | k !in names ensures AlikeAt(fields, m, k) <==> (k in m ==> Zero(m[k])) {}
    if forall k :: k !in names ==> AlikeAt(fields, m, k) {
      forall k | k in m && k !in names ensures Zero(m[k]) { assert AlikeAt(fields, m, k); }
    }
  }

  lemma VlessTexts(m: Fields, fields: Fields)
    requires "email" in m && m["email"].Str? && "id" in m && m["id"].Str? && OptionalUserString(m, "flow").Some?
    requires fields == AccountFields(m["email"].s, Vless(m["id"].s, OptionalUserString(m, "flow").value, Testseed(m)))
    ensures AlikeAt(fields, m, "email") && AlikeAt(fields, m, "id") && AlikeAt(fields, m, "flow")
  {
  }

  lemma VlessAccountCarried(m: Fields, fields: Fields)
    requires "email" in m && m["email"].Str? && "id" in m && m["id"].Str? && OptionalUserString(m, "flow").Some?
    requires fields == AccountFields(m["email"].s, Vless(m["id"].s, OptionalUserString(m, "flow").value, Testseed(m)))
    ensures NonZero(fields) == NonZero(m) <==>
      && OnlyFields(m, {"email", "id", "flow", "testseed"})
      && ("testseed" in m ==> Zero(m["testseed"]) || ZeroSeed(m["testseed"]))
  {
    var names := {"email", "id", "flow", "testseed"};
    VlessTexts(m, fields);
    SeedCarried(m, fields);
    BeyondNames(fields, m, names);
    AlikeEverywhere(fields, m);
    assert forall k :: k in names ==> k == "email" || k == "id" || k == "flow" || k == "testseed";
  }

  lemma SeedCarried(m: Fields, fields: Fields)
    requires "testseed" in fields <==> Testseed(m) != []
    requires "testseed" in fields ==> fields["testseed"] == Zeros(|Testseed(m)|)
    ensures AlikeAt(fields, m, "testseed") <==> ("testseed" in m ==> Zero(m["testseed"]) || ZeroSeed(m["testseed"]))
  {
  }

  /** A client reaches the core whole exactly when it is carried. */
  lemma CarriedExactly(protocol: string, m: Fields)
    requires HasText(m, "email")
    ensures Carried(protocol, m) <==> Forwarded(protocol, Obj(m)) == Some(Served(Obj(m)))
  {
    if protocol in {"vmess", "trojan"} {
      var key := if protocol == "vmess" then "id" else "password";
      if RequiredUserString(m, key).Some? { PlainAccountCarried(m, key); }
    } else if protocol == "vless" && RequiredUserString(m, "id").Some? && OptionalUserString(m, "flow").Some? {
      VlessAccountCarried(m, AccountFields(m["email"].s, BuildUserAccount(protocol, m).value));
    }
  }

  // ---------- what is sent for any client ----------

  /** The client has all its account requires. */
  predicate Complete(protocol: string, m: Fields) {
    && HasText(m, "email")
    && (if protocol == "vmess" then HasText(m, "id")
        else if protocol == "vless" then HasText(m, "id") && TextOrNothing(m, "flow")
        else protocol == "trojan" && HasText(m, "password"))
  }

  /** The texts of a client that its account takes over. */
  function TextsOf(protocol: string): set<string> {
    if protocol == "vmess" then {"email", "id"}
    else if protocol == "vless" then {"email", "id", "flow"}
    else {"email", "password"}
  }

  lemma NonZeroTwice(m: Fields)
    ensures NonZero(NonZero(m)) == NonZero(m)
  {}

  lemma SentText(m: Fields, fields: Fields, k: string)
    requires TextOrNothing(m, k)
    requires if k in m && m[k].Str? then k in fields && fields[k] == m[k] else k !in fields || fields[k] == Str("")
    ensures AlikeAt(NonZero(fields), m, k)
  {
    NonZeroTwice(fields);
  }

  lemma SentTexts(protocol: string, m: Fields)
    requires Complete(protocol, m)
    ensures forall k :: k in TextsOf(protocol) ==>
      AlikeAt(NonZero(AccountFields(m["email"].s, BuildUserAccount(protocol, m).value)), m, k)
  {
    var fields := AccountFields(m["email"].s, BuildUserAccount(protocol, m).value);
    forall k | k in TextsOf(protocol) ensures AlikeAt(NonZero(fields), m, k) { SentText(m, fields, k); }
  }

  /** A client is sent exactly when it is complete; then its texts are taken over, four seeds or more of a vless client
      become as many zeros, and nothing else is sent. */
  lemma ForwardedExactly(protocol: string, m: Fields)
    ensures Forwarded(protocol, Obj(m)).Some? <==> Complete(protocol, m)
    ensures Complete(protocol, m) ==> Forwarded(protocol, Obj(m)).value.Obj?
    ensures Complete(protocol, m) ==> var sent := Forwarded(protocol, Obj(m)).value.fields;
      && (forall k :: k in TextsOf(protocol) ==> AlikeAt(sent, m, k))
      && (forall k :: k in sent ==> k in TextsOf(protocol) || k == "testseed")
      && ("testseed" in sent <==>
            protocol == "vless" && "testseed" in m && m["testseed"].Arr? && |m["testseed"].items| >= 4)
      && ("testseed" in sent ==> sent["testseed"] == Zeros(|m["testseed"].items|))
  {
    if Complete(protocol, m) { SentTexts(protocol, m); }
  }
}
