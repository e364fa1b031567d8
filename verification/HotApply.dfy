/** Applying a hot diff to a running core, in the order the panel issues the calls. */
module HotApply {
  import opened Json
  import opened Options
  import opened XrayConfig
  import opened HotAccounts
  import opened HotDiff

  // ---------- what a running core serves ----------

  /** Settings as the handler keeps them: with addressable clients the clients live in the user
      table, otherwise the whole section is opaque. */
  datatype SettingsFrame = Clients(rest: Json) | Opaque(section: Section)

  datatype Handler = Handler(port: int, protocol: string, listen: Section, stream: Section,
                             sniffing: Section, settings: SettingsFrame)

  datatype Router = NoRouter | BadRouter(text: Raw)
    | Router(rest: Json, rules: Option<Json>, balancers: Option<Json>)

  /** The sections a core reads at its start only. */
  datatype Statics = Statics(
    log: Section, dns: Section, transport: Section, policy: Section, api: Section, stats: Section, reverse: Section,
    fakeDns: Section, observatory: Section, burstObservatory: Section, metrics: Section, geodata: Section, env: Section)

  datatype Core = Core(
    statics: Statics,
    handlers: map<string, Handler>,
    users: UserMap,
    outbounds: seq<Json>,
    router: Router)

  function FrameOf(ib: InboundConfig): Handler {
    Handler(ib.port, ib.protocol, Meaning(ib.listen), Meaning(ib.streamSettings), Meaning(ib.sniffing),
            match SplitSettings(ib.settings)
            case None => Opaque(Meaning(ib.settings))
            case Some(s) => Clients(s.rest))
  }

  function Field(m: map<string, Json>, key: string): Option<Json> {
    if key in m then Some(m[key]) else None
  }

  function RouterOf(raw: Raw): Router {
    if raw == "" then NoRouter else
      match Decode(raw)
      case Some(Null) => Router(Null, None, None)
      case Some(Obj(m)) => Router(Obj(m - {"rules", "balancers"}), Field(m, "rules"), Field(m, "balancers"))
      case _ => BadRouter(raw)
  }

  function Frames(byTag: map<string, InboundConfig>): map<string, Handler> {
    map t | t in byTag :: FrameOf(byTag[t])
  }

  /** Users by inbound tag and email. */
  type UserMap = map<string, map<string, Json>>

  function UsersByTag(byTag: map<string, InboundConfig>): UserMap {
    map t | t in byTag :: Users(byTag[t])
  }

  function ServedTable(users: map<string, Json>): map<string, Json> {
    map e | e in users :: Served(users[e])
  }

  /** The clients of the config as the core serves them. */
  function ServedUsers(users: UserMap): UserMap {
    map t | t in users :: ServedTable(users[t])
  }

  /** The core a config describes. */
  function Boot(c: Config): Core {
    var byTag := ByTag(c.inbounds);
    Core(Statics(Meaning(c.log), Meaning(c.dns), Meaning(c.transport), Meaning(c.policy), Meaning(c.api),
                 Meaning(c.stats), Meaning(c.reverse), Meaning(c.fakeDns), Meaning(c.observatory),
                 Meaning(c.burstObservatory), Meaning(c.metrics), Meaning(c.geodata), Meaning(c.env)),
         Frames(byTag), ServedUsers(UsersByTag(byTag)),
         match Outbounds(c.outbounds) case None => [] case Some(items) => items,
         RouterOf(c.routing))
  }

  /** Two cores that serve alike: the first outbound is the default handler and the others are
      addressed by tag, so only their order may differ. */
  ghost predicate SameService(a: Core, b: Core) {
    && a.statics == b.statics
    && a.handlers == b.handlers
    && a.users == b.users
    && a.router == b.router
    && multiset(a.outbounds) == multiset(b.outbounds)
    && (|a.outbounds| > 0 ==> a.outbounds[0] == b.outbounds[0])
  }

  // ---------- the calls; None when a call does not meet what it expects ----------

  function RemoveUser(c: Core, op: UserOp): Option<Core> {
    if op.tag !in c.users || op.email !in c.users[op.tag] then None
    else Some(c.(users := c.users[op.tag := c.users[op.tag] - {op.email}]))
  }

  /** XrayAPI.AddUser: the account is built from the client, and refused when the client lacks what it needs. */
  function AddUser(c: Core, op: UserOp): Option<Core> {
    if op.user.None? || Forwarded(op.protocol, op.user.value).None? then None else
      var email := EmailOf(op.user.value);
      if op.tag !in c.users || email in c.users[op.tag] then None
      else Some(c.(users := c.users[op.tag := c.users[op.tag][email := Forwarded(op.protocol, op.user.value).value]]))
  }

  function DelInbound(c: Core, tag: string): Option<Core> {
    if tag !in c.handlers then None
    else Some(c.(handlers := c.handlers - {tag}, users := c.users - {tag}))
  }

  function AddInbound(c: Core, ib: InboundConfig): Option<Core> {
    if ib.tag in c.handlers then None
    else Some(c.(handlers := c.handlers[ib.tag := FrameOf(ib)], users := c.users[ib.tag := ServedTable(Users(ib))]))
  }

  /** Index of the outbound under a tag. */
  function Find(outbounds: seq<Json>, tag: string): (i: nat)
    ensures i <= |outbounds|
    ensures i < |outbounds| ==> TagOf(outbounds[i]) == tag
    ensures i == |outbounds| ==> forall k :: 0 <= k < |outbounds| ==> TagOf(outbounds[k]) != tag
  {
    if outbounds == [] then 0
    else if TagOf(outbounds[0]) == tag then 0
    else 1 + Find(outbounds[1..], tag)
  }

  function DelOutbound(c: Core, tag: string): Option<Core> {
    var i := Find(c.outbounds, tag);
    if i == |c.outbounds| then None
    else Some(c.(outbounds := c.outbounds[..i] + c.outbounds[i + 1..]))
  }

  function AddOutbound(c: Core, v: Json): Option<Core> {
    if Find(c.outbounds, TagOf(v)) < |c.outbounds| then None
    else Some(c.(outbounds := c.outbounds + [v]))
  }

  /** ApplyRoutingConfig replaces the rules and balancers of an existing router. */
  function ApplyRouting(c: Core, raw: Raw): Option<Core> {
    match (c.router, RouterOf(raw))
    case (Router(rest, _, _), Router(_, rules, balancers)) => Some(c.(router := Router(rest, rules, balancers)))
    case _ => None
  }

  /** One call of the panel to the core. */
  datatype Call =
    | CallRemoveUser(op: UserOp) | CallDelInbound(tag: string) | CallDelOutbound(tag: string)
    | CallAddOutbound(v: Json) | CallAddInbound(ib: InboundConfig) | CallAddUser(op: UserOp)
    | CallRouting(raw: Raw)

  function Perform(c: Core, call: Call): Option<Core> {
    match call
    case CallRemoveUser(op) => RemoveUser(c, op)
    case CallDelInbound(tag) => DelInbound(c, tag)
    case CallDelOutbound(tag) => DelOutbound(c, tag)
    case CallAddOutbound(v) => AddOutbound(c, v)
    case CallAddInbound(ib) => AddInbound(c, ib)
    case CallAddUser(op) => AddUser(c, op)
    case CallRouting(raw) => ApplyRouting(c, raw)
  }

  /** The calls in order; None as soon as one does not meet what it expects. */
  function Run(c: Core, calls: seq<Call>): Option<Core>
    decreases |calls|
  {
    if calls == [] then Some(c) else
      match Run(c, calls[..|calls| - 1])
      case None => None
      case Some(c') => Perform(c', calls[|calls| - 1])
  }

  function RemoveUserCalls(ops: seq<UserOp>): seq<Call> {
    seq(|ops|, i requires 0 <= i < |ops| => CallRemoveUser(ops[i]))
  }

  function DelInboundCalls(tags: seq<string>): seq<Call> {
    seq(|tags|, i requires 0 <= i < |tags| => CallDelInbound(tags[i]))
  }

  function DelOutboundCalls(tags: seq<string>): seq<Call> {
    seq(|tags|, i requires 0 <= i < |tags| => CallDelOutbound(tags[i]))
  }

  function AddOutboundCalls(vs: seq<Json>): seq<Call> { seq(|vs|, i requires 0 <= i < |vs| => CallAddOutbound(vs[i])) }
  function AddInboundCalls(ibs: seq<InboundConfig>): seq<Call> {
    seq(|ibs|, i requires 0 <= i < |ibs| => CallAddInbound(ibs[i]))
  }

  function AddUserCalls(ops: seq<UserOp>): seq<Call> { seq(|ops|, i requires 0 <= i < |ops| => CallAddUser(ops[i])) }
  function RoutingCalls(raw: Option<Raw>): seq<Call> { if raw.None? then [] else [CallRouting(raw.value)] }

  /** tryHotApply: removals first, so changed handlers never collide with the additions. */
  function Calls(d: Ops): seq<Call> {
    RemoveUserCalls(d.removedUsers) + DelInboundCalls(d.removedInbounds) + DelOutboundCalls(d.removedOutbounds)
    + AddOutboundCalls(d.addedOutbounds) + AddInboundCalls(d.addedInbounds) + AddUserCalls(d.addedUsers)
    + RoutingCalls(d.routing)
  }

  // ---------- what each run of calls does ----------

  function Then(c: Option<Core>, call: Call): Option<Core> {
    if c.None? then None else Perform(c.value, call)
  }

  lemma RunLast(c: Core, init: seq<Call>, call: Call)
    ensures Run(c, init + [call]) == Then(Run(c, init), call)
  {
    assert (init + [call])[..|init|] == init;
  }

  lemma RunBothStep(c: Core, a: seq<Call>, init: seq<Call>, call: Call)
    requires Run(c, a).Some? && Run(c, a + init) == Run(Run(c, a).value, init)
    ensures Run(c, a + (init + [call])) == Run(Run(c, a).value, init + [call])
  {
    assert a + (init + [call]) == (a + init) + [call];
    RunLast(c, a + init, call);
    RunLast(Run(c, a).value, init, call);
  }

  lemma {:induction false} RunBoth(c: Core, a: seq<Call>, b: seq<Call>)
    requires Run(c, a).Some?
    ensures Run(c, a + b) == Run(Run(c, a).value, b)
    decreases |b|
  {
    if b == [] {
      assert a + b == a;
    } else {
      RunBoth(c, a, b[..|b| - 1]);
      RunBothStep(c, a, b[..|b| - 1], b[|b| - 1]);
      assert b == b[..|b| - 1] + [b[|b| - 1]];
    }
  }

  lemma RunSnoc(c: Core, init: seq<Call>, call: Call)
    requires Run(c, init).Some?
    ensures Run(c, init + [call]) == Perform(Run(c, init).value, call)
  {
    RunLast(c, init, call);
  }

  function Key(op: UserOp): (string, string) {
    (op.tag, op.email)
  }

  function KeySet(ops: seq<UserOp>): set<(string, string)> {
    set op | op in ops :: Key(op)
  }

  ghost predicate DistinctKeys(ops: seq<UserOp>) {
    forall i, j :: 0 <= i < j < |ops| ==> Key(ops[i]) != Key(ops[j])
  }

  /** `after` is `before` without the users named by the keys. */
  ghost predicate UsersWithout(before: UserMap, after: UserMap,
                               keys: set<(string, string)>)
  {
    && after.Keys == before.Keys
    && forall t, e :: t in before ==>
        && (e in after[t] <==> e in before[t] && (t, e) !in keys)
        && (e in after[t] ==> after[t][e] == before[t][e])
  }

  lemma RemoveUserStep(before: UserMap, mid: UserMap,
                       keys: set<(string, string)>, t: string, e: string)
    requires UsersWithout(before, mid, keys) && t in before && (t, e) !in keys && e in before[t]
    ensures e in mid[t]
    ensures UsersWithout(before, mid[t := mid[t] - {e}], keys + {(t, e)})
  {
  }

  lemma KeySetSnoc(init: seq<UserOp>, op: UserOp)
    ensures KeySet(init + [op]) == KeySet(init) + {Key(op)}
  {
    assert forall o :: o in init + [op] <==> o in init || o == op;
  }

  lemma LastKeyIsNew(init: seq<UserOp>, op: UserOp)
    requires DistinctKeys(init + [op])
    ensures DistinctKeys(init) && Key(op) !in KeySet(init)
  {
    var ops := init + [op];
    forall i | 0 <= i < |init| ensures Key(init[i]) != Key(op) {
      assert ops[i] == init[i] && ops[|init|] == op;
    }
    forall i, j | 0 <= i < j < |init| ensures Key(init[i]) != Key(init[j]) {
      assert ops[i] == init[i] && ops[j] == init[j];
    }
  }

  lemma RemoveUserSnoc(c: Core, init: seq<UserOp>, op: UserOp, mid: Core)
    requires Run(c, RemoveUserCalls(init)) == Some(mid)
    ensures Run(c, RemoveUserCalls(init + [op])) == RemoveUser(mid, op)
  {
    assert RemoveUserCalls(init + [op]) == RemoveUserCalls(init) + [CallRemoveUser(op)];
    RunSnoc(c, RemoveUserCalls(init), CallRemoveUser(op));
  }

  lemma {:induction false} RemoveUsersRun(c: Core, ops: seq<UserOp>) returns (r: UserMap)
    requires DistinctKeys(ops)
    requires forall op :: op in ops ==> op.tag in c.users && op.email in c.users[op.tag]
    ensures Run(c, RemoveUserCalls(ops)) == Some(c.(users := r))
    ensures UsersWithout(c.users, r, KeySet(ops))
    decreases |ops|
  {
    if ops == [] {
      r := c.users;
    } else {
      var init, op := ops[..|ops| - 1], ops[|ops| - 1];
      assert ops == init + [op];
      LastKeyIsNew(init, op);
      KeySetSnoc(init, op);
      var mid := RemoveUsersRun(c, init);
      RemoveUserSnoc(c, init, op, c.(users := mid));
      RemoveUserStep(c.users, mid, KeySet(init), op.tag, op.email);
      r := mid[op.tag := mid[op.tag] - {op.email}];
    }
  }

  lemma DelInboundSnoc(c: Core, init: seq<string>, tag: string, mid: Core)
    requires Run(c, DelInboundCalls(init)) == Some(mid)
    ensures Run(c, DelInboundCalls(init + [tag])) == DelInbound(mid, tag)
  {
    assert DelInboundCalls(init + [tag]) == DelInboundCalls(init) + [CallDelInbound(tag)];
    RunSnoc(c, DelInboundCalls(init), CallDelInbound(tag));
  }

  lemma ElementsSnoc(init: seq<string>, tag: string)
    ensures Elements(init + [tag]) == Elements(init) + {tag}
  {
    assert forall t :: t in init + [tag] <==> t in init || t == tag;
  }

  lemma TakenOut<V>(m: map<string, V>, gone: set<string>, tag: string)
    ensures m - gone - {tag} == m - (gone + {tag})
  {
  }

  lemma {:induction false} DelInboundsRun(c: Core, tags: seq<string>)
    requires forall i, j :: 0 <= i < j < |tags| ==> tags[i] != tags[j]
    requires Elements(tags) <= c.handlers.Keys
    ensures Run(c, DelInboundCalls(tags))
         == Some(c.(handlers := c.handlers - Elements(tags), users := c.users - Elements(tags)))
    decreases |tags|
  {
    if tags == [] {
      assert c.handlers - Elements(tags) == c.handlers && c.users - Elements(tags) == c.users;
    } else {
      var init, tag := tags[..|tags| - 1], tags[|tags| - 1];
      assert tags == init + [tag] && tag !in init;
      ElementsSnoc(init, tag);
      DelInboundsRun(c, init);
      DelInboundSnoc(c, init, tag, c.(handlers := c.handlers - Elements(init), users := c.users - Elements(init)));
      TakenOut(c.handlers, Elements(init), tag);
      TakenOut(c.users, Elements(init), tag);
    }
  }

  lemma ByTagSnoc(ibs: seq<InboundConfig>, init: map<string, InboundConfig>, last: InboundConfig)
    requires TagsOk(ibs) && ibs != []
    requires last == ibs[|ibs| - 1] && init == ByTag(ibs[..|ibs| - 1])
    ensures last.tag !in init && ByTag(ibs) == init[last.tag := last]
  {
    var n := |ibs| - 1;
    if last.tag in init {
      ByTagKeys(ibs[..n], last.tag);
    }
  }

  lemma FramesExtend(init: map<string, InboundConfig>, ib: InboundConfig)
    ensures Frames(init[ib.tag := ib]) == Frames(init)[ib.tag := FrameOf(ib)]
  {
  }

  lemma UsersExtend(init: map<string, InboundConfig>, ib: InboundConfig)
    ensures ServedUsers(UsersByTag(init[ib.tag := ib])) ==
      ServedUsers(UsersByTag(init))[ib.tag := ServedTable(Users(ib))]
  {
  }

  lemma PutAfter<K, V>(a: map<K, V>, b: map<K, V>, k: K, v: V)
    ensures (a + b)[k := v] == a + b[k := v]
  {
  }

  function WithInbounds(c: Core, byTag: map<string, InboundConfig>): Core {
    c.(handlers := c.handlers + Frames(byTag), users := c.users + ServedUsers(UsersByTag(byTag)))
  }

  lemma AddInboundStep(c: Core, init: map<string, InboundConfig>, ib: InboundConfig)
    requires ib.tag !in init && ib.tag !in c.handlers
    ensures AddInbound(WithInbounds(c, init), ib) == Some(WithInbounds(c, init[ib.tag := ib]))
  {
    FramesExtend(init, ib);
    UsersExtend(init, ib);
    PutAfter(c.handlers, Frames(init), ib.tag, FrameOf(ib));
    PutAfter(c.users, ServedUsers(UsersByTag(init)), ib.tag, ServedTable(Users(ib)));
  }

  lemma AddInboundSnoc(c: Core, ibs: seq<InboundConfig>, mid: Core)
    requires ibs != [] && Run(c, AddInboundCalls(ibs[..|ibs| - 1])) == Some(mid)
    ensures Run(c, AddInboundCalls(ibs)) == AddInbound(mid, ibs[|ibs| - 1])
  {
    var init, ib := ibs[..|ibs| - 1], ibs[|ibs| - 1];
    assert AddInboundCalls(ibs) == AddInboundCalls(init) + [CallAddInbound(ib)];
    RunSnoc(c, AddInboundCalls(init), CallAddInbound(ib));
  }

  lemma WithNone(c: Core)
    ensures WithInbounds(c, map[]) == c
  {
    assert c.handlers + Frames(map[]) == c.handlers && c.users + ServedUsers(UsersByTag(map[])) == c.users;
  }

  lemma {:induction false} AddInboundsRun(c: Core, ibs: seq<InboundConfig>)
    requires TagsOk(ibs) && ByTag(ibs).Keys !! c.handlers.Keys
    ensures Run(c, AddInboundCalls(ibs)) == Some(WithInbounds(c, ByTag(ibs)))
    decreases |ibs|
  {
    if ibs == [] {
      WithNone(c);
    } else {
      var n := |ibs| - 1;
      var init, ib := ibs[..n], ibs[n];
      ByTagSnoc(ibs, ByTag(init), ib);
      assert ib.tag in ByTag(ibs).Keys && ByTag(init).Keys <= ByTag(ibs).Keys;
      AddInboundsRun(c, init);
      AddInboundSnoc(c, ibs, WithInbounds(c, ByTag(init)));
      AddInboundStep(c, ByTag(init), ib);
    }
  }

  /** The client of an operation, addressed by the operation's email and fit for an account. */
  ghost predicate Accepted(op: UserOp) {
    op.user.Some? && Forwarded(op.protocol, op.user.value).Some?
  }

  /** The users of the operations are there as they are forwarded. */
  ghost predicate OpsServed(after: UserMap, ops: seq<UserOp>) {
    forall op :: op in ops ==>
      && op.tag in after && op.email in after[op.tag] && op.user.Some?
      && Forwarded(op.protocol, op.user.value) == Some(after[op.tag][op.email])
  }

  /** All other users are as they were. */
  ghost predicate OthersKept(before: UserMap, after: UserMap, keys: set<(string, string)>) {
    && after.Keys == before.Keys
    && forall t, e :: t in before && (t, e) !in keys ==>
        && (e in after[t] <==> e in before[t])
        && (e in after[t] ==> after[t][e] == before[t][e])
  }

  /** `after` is `before` with the users of the operations added, as they are forwarded. */
  ghost predicate UsersWith(before: UserMap, after: UserMap, ops: seq<UserOp>) {
    OpsServed(after, ops) && OthersKept(before, after, KeySet(ops))
  }

  function PutUser(m: UserMap, t: string, e: string, v: Json): UserMap
    requires t in m
  {
    m[t := m[t][e := v]]
  }

  lemma ServedMore(mid: UserMap, init: seq<UserOp>, op: UserOp)
    requires OpsServed(mid, init) && op.tag in mid && Accepted(op) && Key(op) !in KeySet(init)
    ensures OpsServed(PutUser(mid, op.tag, op.email, Forwarded(op.protocol, op.user.value).value), init + [op])
  {
    var after := PutUser(mid, op.tag, op.email, Forwarded(op.protocol, op.user.value).value);
    forall o | o in init + [op]
      ensures o.tag in after && o.email in after[o.tag] && o.user.Some?
      ensures Forwarded(o.protocol, o.user.value) == Some(after[o.tag][o.email])
    {
      if o in init { assert Key(o) in KeySet(init); }
    }
  }

  lemma OthersMore(before: UserMap, mid: UserMap, keys: set<(string, string)>, t: string, e: string, v: Json)
    requires OthersKept(before, mid, keys) && t in mid
    ensures OthersKept(before, PutUser(mid, t, e, v), keys + {(t, e)})
  {
  }

  lemma AddUserStep(before: UserMap, mid: UserMap, init: seq<UserOp>, op: UserOp)
    requires UsersWith(before, mid, init) && op.tag in before && op.email !in before[op.tag] && Accepted(op)
    requires Key(op) !in KeySet(init)
    ensures op.email !in mid[op.tag]
    ensures UsersWith(before, PutUser(mid, op.tag, op.email, Forwarded(op.protocol, op.user.value).value), init + [op])
  {
    KeySetSnoc(init, op);
    ServedMore(mid, init, op);
    OthersMore(before, mid, KeySet(init), op.tag, op.email, Forwarded(op.protocol, op.user.value).value);
  }

  lemma AddUserSnoc(c: Core, ops: seq<UserOp>, mid: Core)
    requires ops != [] && Run(c, AddUserCalls(ops[..|ops| - 1])) == Some(mid)
    ensures Run(c, AddUserCalls(ops)) == AddUser(mid, ops[|ops| - 1])
  {
    var init, op := ops[..|ops| - 1], ops[|ops| - 1];
    assert AddUserCalls(ops) == AddUserCalls(init) + [CallAddUser(op)];
    RunSnoc(c, AddUserCalls(init), CallAddUser(op));
  }

  lemma {:induction false} AddUsersRun(c: Core, ops: seq<UserOp>) returns (r: UserMap)
    requires forall op :: op in ops ==>
      Accepted(op) && EmailOf(op.user.value) == op.email && op.tag in c.users && op.email !in c.users[op.tag]
    requires DistinctKeys(ops)
    ensures Run(c, AddUserCalls(ops)) == Some(c.(users := r))
    ensures UsersWith(c.users, r, ops)
    decreases |ops|
  {
    if ops == [] {
      r := c.users;
    } else {
      var n := |ops| - 1;
      var init, op := ops[..n], ops[n];
      assert ops == init + [op];
      LastKeyIsNew(init, op);
      var mid := AddUsersRun(c, init);
      AddUserSnoc(c, ops, c.(users := mid));
      AddUserStep(c.users, mid, init, op);
      r := PutUser(mid, op.tag, op.email, Forwarded(op.protocol, op.user.value).value);
    }
  }

  /** Calls that all succeed have succeeded so far. */
  lemma {:induction false} RunPrefix(c: Core, a: seq<Call>, b: seq<Call>)
    requires Run(c, a + b).Some?
    ensures Run(c, a).Some? && Run(Run(c, a).value, b) == Run(c, a + b)
    decreases |b|
  {
    if b == [] {
      assert a + b == a;
    } else {
      var init, call := b[..|b| - 1], b[|b| - 1];
      assert a + b == (a + init) + [call];
      RunLast(c, a + init, call);
      RunPrefix(c, a, init);
      RunBoth(c, a, b);
    }
  }

  /** A client without what its account needs stops the run. */
  lemma {:induction false} AddedAreAccepted(c: Core, ops: seq<UserOp>, op: UserOp)
    requires Run(c, AddUserCalls(ops)).Some? && op in ops
    ensures Accepted(op)
    decreases |ops|
  {
    var n := |ops| - 1;
    var calls := AddUserCalls(ops);
    assert calls[..|calls| - 1] == AddUserCalls(ops[..n]) && calls[|calls| - 1] == CallAddUser(ops[n]);
    if op != ops[n] {
      assert ops == ops[..n] + [ops[n]];
      AddedAreAccepted(c, ops[..n], op);
    }
  }

  lemma FindAt(outbounds: seq<Json>, tag: string)
    ensures Find(outbounds, tag) < |outbounds| <==> tag in Tags(outbounds)
  {
    var i := Find(outbounds, tag);
    if i < |outbounds| { assert Tags(outbounds)[i] == tag; }
  }

  lemma {:induction false} AddOutboundsRun(c: Core, vs: seq<Json>)
    requires OutboundsOk(c.outbounds + vs)
    ensures Run(c, AddOutboundCalls(vs)) == Some(c.(outbounds := c.outbounds + vs))
    decreases |vs|
  {
    if vs == [] {
      assert c.outbounds + vs == c.outbounds;
    } else {
      var n := |vs| - 1;
      var init, v := vs[..n], vs[n];
      assert vs == init + [v];
      var all := c.outbounds + init;
      assert c.outbounds + vs == all + [v];
      assert Tags(all + [v]) == Tags(all) + [TagOf(v)];
      assert Addressable(Tags(all)) by { PrefixAddressable(Tags(all), TagOf(v)); }
      AddOutboundsRun(c, init);
      assert AddOutboundCalls(vs) == AddOutboundCalls(init) + [CallAddOutbound(v)];
      RunSnoc(c, AddOutboundCalls(init), CallAddOutbound(v));
      FindAt(all, TagOf(v));
      PrefixAddressable(Tags(all), TagOf(v));
    }
  }

  lemma PrefixAddressable(tags: seq<string>, tag: string)
    requires Addressable(tags + [tag])
    ensures Addressable(tags) && tag !in tags
  {
    var t := tags + [tag];
    assert t[|tags|] == tag;
    forall i | 0 <= i < |tags| ensures tags[i] != "" && tags[i] != tag {
      assert t[i] == tags[i];
    }
    forall i, j | 0 <= i < j < |tags| ensures tags[i] != tags[j] {
      assert t[i] != t[j];
    }
  }

  function Without(s: seq<Json>, i: nat): seq<Json>
    requires i < |s|
  {
    s[..i] + s[i + 1..]
  }

  lemma WithoutAddressable(s: seq<Json>, i: nat)
    requires OutboundsOk(s) && i < |s|
    ensures OutboundsOk(Without(s, i))
  {
    var ts, tr := Tags(s), Tags(Without(s, i));
    assert forall k :: 0 <= k < |tr| ==> tr[k] == ts[if k < i then k else k + 1];
  }

  lemma WithoutAt(s: seq<Json>, i: nat, k: nat)
    requires i < |s| && k < |s| && k != i
    ensures s[k] in Without(s, i)
  {
    assert Without(s, i)[if k < i then k else k - 1] == s[k];
  }

  lemma WithoutFrom(s: seq<Json>, i: nat, v: Json) returns (k: nat)
    requires i < |s| && v in Without(s, i)
    ensures k < |s| && k != i && s[k] == v
  {
    var r := Without(s, i);
    var j :| 0 <= j < |r| && r[j] == v;
    k := if j < i then j else j + 1;
  }

  lemma WithoutMembers(s: seq<Json>, i: nat, v: Json)
    requires OutboundsOk(s) && i < |s|
    ensures v in Without(s, i) <==> v in s && TagOf(v) != TagOf(s[i])
  {
    if v in Without(s, i) {
      var k := WithoutFrom(s, i, v);
      assert Tags(s)[k] != Tags(s)[i];
    }
    if v in s && TagOf(v) != TagOf(s[i]) {
      var k :| 0 <= k < |s| && s[k] == v;
      WithoutAt(s, i, k);
    }
  }

  /** Deleting one outbound keeps the others, in order. */
  lemma DelOutboundStep(s: seq<Json>, tag: string) returns (r: seq<Json>)
    requires OutboundsOk(s) && tag in Tags(s)
    ensures Find(s, tag) < |s| && r == s[..Find(s, tag)] + s[Find(s, tag) + 1..]
    ensures OutboundsOk(r)
    ensures forall v :: v in r <==> v in s && TagOf(v) != tag
    ensures TagOf(s[0]) != tag ==> r != [] && r[0] == s[0]
  {
    FindAt(s, tag);
    var i := Find(s, tag);
    r := Without(s, i);
    WithoutAddressable(s, i);
    forall v ensures v in r <==> v in s && TagOf(v) != tag {
      WithoutMembers(s, i, v);
    }
  }

  lemma DelOutboundSnoc(c: Core, init: seq<string>, tag: string, mid: Core)
    requires Run(c, DelOutboundCalls(init)) == Some(mid)
    ensures Run(c, DelOutboundCalls(init + [tag])) == DelOutbound(mid, tag)
  {
    assert DelOutboundCalls(init + [tag]) == DelOutboundCalls(init) + [CallDelOutbound(tag)];
    RunSnoc(c, DelOutboundCalls(init), CallDelOutbound(tag));
  }

  lemma StillThere(all: seq<Json>, s: seq<Json>, gone: seq<string>, tag: string)
    requires tag in Tags(all) && tag !in gone && forall v :: v in all && TagOf(v) !in gone ==> v in s
    ensures tag in Tags(s)
  {
    var k :| 0 <= k < |Tags(all)| && Tags(all)[k] == tag;
    assert all[k] in s;
    TagsMember(s, all[k]);
  }

  /** These tags can be deleted: each is there once, and none is that of the default outbound. */
  ghost predicate Deletable(outbounds: seq<Json>, tags: seq<string>) {
    && OutboundsOk(outbounds)
    && (forall i, j :: 0 <= i < j < |tags| ==> tags[i] != tags[j])
    && (forall t :: t in tags ==> t in Tags(outbounds))
    && (outbounds != [] ==> TagOf(outbounds[0]) !in tags)
  }

  /** `r` is what is left without the outbounds of these tags. */
  ghost predicate LeftOver(outbounds: seq<Json>, tags: seq<string>, r: seq<Json>) {
    && OutboundsOk(r)
    && (forall v :: v in r <==> v in outbounds && TagOf(v) !in tags)
    && (outbounds != [] ==> r != [] && r[0] == outbounds[0])
  }

  lemma DeletableFront(outbounds: seq<Json>, init: seq<string>, tag: string)
    requires Deletable(outbounds, init + [tag])
    ensures Deletable(outbounds, init) && tag in Tags(outbounds) && tag !in init
    ensures outbounds != [] ==> TagOf(outbounds[0]) != tag
  {
    var tags := init + [tag];
    assert tags[|init|] == tag && forall i :: 0 <= i < |init| ==> tags[i] == init[i];
  }

  lemma LeftOverMore(outbounds: seq<Json>, init: seq<string>, tag: string, s: seq<Json>, r: seq<Json>)
    requires LeftOver(outbounds, init, s) && OutboundsOk(r) && (outbounds != [] ==> r != [] && r[0] == s[0])
    requires forall v :: v in r <==> v in s && TagOf(v) != tag
    ensures LeftOver(outbounds, init + [tag], r)
  {
    assert forall t :: t in init + [tag] <==> t in init || t == tag;
  }

  lemma DelOneMore(outbounds: seq<Json>, init: seq<string>, tag: string, s: seq<Json>) returns (r: seq<Json>)
    requires Deletable(outbounds, init + [tag]) && LeftOver(outbounds, init, s)
    ensures Find(s, tag) < |s| && r == s[..Find(s, tag)] + s[Find(s, tag) + 1..]
    ensures LeftOver(outbounds, init + [tag], r)
  {
    DeletableFront(outbounds, init, tag);
    StillThere(outbounds, s, init, tag);
    r := DelOutboundStep(s, tag);
    LeftOverMore(outbounds, init, tag, s, r);
  }

  lemma {:induction false} DelOutboundsRun(c: Core, tags: seq<string>) returns (r: seq<Json>)
    requires Deletable(c.outbounds, tags)
    ensures Run(c, DelOutboundCalls(tags)) == Some(c.(outbounds := r)) && LeftOver(c.outbounds, tags, r)
    decreases |tags|
  {
    if tags == [] {
      r := c.outbounds;
    } else {
      var init, tag := tags[..|tags| - 1], tags[|tags| - 1];
      assert tags == init + [tag];
      DeletableFront(c.outbounds, init, tag);
      var s := DelOutboundsRun(c, init);
      DelOutboundSnoc(c, init, tag, c.(outbounds := s));
      r := DelOneMore(c.outbounds, init, tag, s);
    }
  }
}
