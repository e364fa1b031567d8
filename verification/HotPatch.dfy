/** The hot diff is right: performing its calls on a core that runs the old config gives a core that
    serves the new one, every call finds what it expects, and what must survive is not touched. */
module HotPatch {
  import opened Json
  import opened Options
  import opened XrayConfig
  import opened HotAccounts
  import opened HotDiff
  import opened HotApply

  // ---------- inbounds that compare equal ----------

  lemma SameMeaningSameSplit(a: Raw, b: Raw)
    requires Meaning(a) == Meaning(b)
    ensures SplitSettings(a) == SplitSettings(b)
  {
  }

  lemma EqualInboundsServeAlike(o: InboundConfig, n: InboundConfig)
    requires InboundEqualNormalized(o, n)
    ensures FrameOf(o) == FrameOf(n) && Users(o) == Users(n)
  {
    RawEqualIffSameMeaning(o.listen, n.listen);
    RawEqualIffSameMeaning(o.settings, n.settings);
    RawEqualIffSameMeaning(o.streamSettings, n.streamSettings);
    RawEqualIffSameMeaning(o.sniffing, n.sniffing);
    SameMeaningSameSplit(o.settings, n.settings);
  }

  lemma OnlyUsersDifferSameFrame(o: InboundConfig, n: InboundConfig)
    requires OnlyUsersDiffer(o, n)
    ensures FrameOf(o) == FrameOf(n)
  {
    RawEqualIffSameMeaning(o.listen, n.listen);
    RawEqualIffSameMeaning(o.streamSettings, n.streamSettings);
    RawEqualIffSameMeaning(o.sniffing, n.sniffing);
  }

  // ---------- the lists of the diff, by tag ----------

  function Verdicts(o: seq<InboundConfig>, newByTag: map<string, InboundConfig>, apiTag: string): map<string, Verdict> {
    map t | t in ByTag(o) :: Judge(ByTag(o)[t], newByTag, apiTag)
  }

  lemma RemovedIs(o: seq<InboundConfig>, newByTag: map<string, InboundConfig>, apiTag: string, t: string)
    requires TagsOk(o)
    ensures t in Removed(o, newByTag, apiTag)
      <==> t in ByTag(o) && Verdicts(o, newByTag, apiTag)[t] in {Replace, Drop}
  {
    if t in Removed(o, newByTag, apiTag) {
      var i: nat :| i < |o| && Judge(o[i], newByTag, apiTag) in {Replace, Drop} && t == o[i].tag;
      ByTagAt(o, i);
    }
    if t in ByTag(o) { ByTagKeys(o, t); }
  }

  lemma ReaddedIs(o: seq<InboundConfig>, newByTag: map<string, InboundConfig>, apiTag: string, ib: InboundConfig)
    requires TagsOk(o) && forall t :: t in newByTag ==> newByTag[t].tag == t
    ensures ib in Readded(o, newByTag, apiTag)
      <==> ib.tag in ByTag(o) && Verdicts(o, newByTag, apiTag)[ib.tag] == Replace
           && ib.tag in newByTag && newByTag[ib.tag] == ib
  {
    if ib in Readded(o, newByTag, apiTag) {
      var i: nat :| i < |o| && Judge(o[i], newByTag, apiTag) == Replace && o[i].tag in newByTag
                 && ib == newByTag[o[i].tag];
      ByTagAt(o, i);
    }
    if ib.tag in ByTag(o) { ByTagKeys(o, ib.tag); }
  }

  lemma NovelIs(n: seq<InboundConfig>, oldByTag: map<string, InboundConfig>, ib: InboundConfig)
    requires TagsOk(n)
    ensures ib in Novel(n, oldByTag) <==> ib.tag !in oldByTag && ib.tag in ByTag(n) && ByTag(n)[ib.tag] == ib
  {
    if ib in Novel(n, oldByTag) {
      var i: nat :| i < |n| && n[i].tag !in oldByTag && ib == n[i];
      ByTagAt(n, i);
    }
    if ib.tag in ByTag(n) { ByTagKeys(n, ib.tag); }
  }

  lemma UserOpIs(o: seq<InboundConfig>, newByTag: map<string, InboundConfig>, apiTag: string, adding: bool, op: UserOp)
    requires TagsOk(o)
    ensures op in UserOpsFor(o, newByTag, apiTag, adding)
      <==> op.tag in ByTag(o) && op in UserOpsAt(ByTag(o)[op.tag], newByTag, apiTag, adding)
  {
    if op in UserOpsFor(o, newByTag, apiTag, adding) {
      var i := UserOpOrigin(o, newByTag, apiTag, adding, op);
      ByTagAt(o, i);
    }
    if op.tag in ByTag(o) && op in UserOpsAt(ByTag(o)[op.tag], newByTag, apiTag, adding) {
      ByTagKeys(o, op.tag);
      var i :| 0 <= i < |o| && o[i].tag == op.tag && ByTag(o)[op.tag] == o[i];
      UserOpListed(o, newByTag, apiTag, adding, op, i);
    }
  }

  // ---------- handlers and users, on plain maps ----------

  lemma HandlersEnd(h0: map<string, Handler>, h1: map<string, Handler>, v: map<string, Verdict>,
                    gone: set<string>, back: map<string, Handler>)
    requires v.Keys == h0.Keys
    requires forall t :: t in v ==> v[t] != Refuse
    requires forall t :: t in v && v[t] in {Keep, UserOps} ==> t in h1 && h1[t] == h0[t]
    requires forall t :: t in v && v[t] == Drop ==> t !in h1
    requires forall t :: t in gone <==> t in v && v[t] in {Replace, Drop}
    requires forall t :: t in back <==> t in h1 && (t !in v || v[t] == Replace)
    requires forall t :: t in back ==> back[t] == h1[t]
    ensures (h0 - gone) + back == h1
  {
  }

  /** The user is known to both tables and changed, or leaves, or joins, on an inbound that stays up. */
  ghost predicate Leaves(a: UserMap, b: UserMap, v: map<string, Verdict>, t: string, e: string) {
    && t in v && v[t] == UserOps && t in a && t in b
    && e in a[t] && (e !in b[t] || b[t][e] != a[t][e])
  }

  /** What the verdicts say about the two configs' user tables. */
  ghost predicate UsersJudged(u0: UserMap, u1: UserMap, v: map<string, Verdict>) {
    && v.Keys == u0.Keys
    && forall t :: t in v ==>
        && v[t] != Refuse
        && (v[t] == Drop <==> t !in u1)
        && (v[t] == Keep ==> u1[t] == u0[t])
  }

  lemma ServedJudged(u0: UserMap, u1: UserMap, v: map<string, Verdict>)
    requires UsersJudged(u0, u1, v)
    ensures UsersJudged(ServedUsers(u0), ServedUsers(u1), v)
  {
  }

  /** `served` holds the users of `users` as the core serves them, except that the users of the operations are what
      their accounts carry. */
  ghost predicate Patched(users: map<string, Json>, served: map<string, Json>, ops: seq<UserOp>, t: string) {
    && served.Keys == users.Keys
    && forall e :: e in users && (t, e) !in KeySet(ops) ==> served[e] == Served(users[e])
  }

  /** An inbound that stays up: users in both configs alike stayed, the others were added. */
  lemma KeptTag(a: map<string, Json>, b: map<string, Json>, mid: map<string, Json>, final: map<string, Json>,
                added: set<string>)
    requires forall e :: e in mid <==> e in a && e in b && a[e] == b[e]
    requires forall e :: e in mid ==> mid[e] == Served(a[e])
    requires forall e :: e in added <==> e in b && (e !in a || a[e] != b[e])
    requires forall e :: e in added ==> e in final
    requires forall e :: e !in added ==> (e in final <==> e in mid) && (e in final ==> final[e] == mid[e])
    ensures final.Keys == b.Keys && forall e :: e in b && e !in added ==> final[e] == Served(b[e])
  {
    forall e ensures e in final <==> e in b {
      assert e in added || (e in final <==> e in mid);
    }
  }

  lemma UsersStay(u0: UserMap, u1: UserMap, v: map<string, Verdict>, retired: UserMap, keys: set<(string, string)>,
                  t: string, e: string)
    requires t in u0 && t in u1 && v.Keys == u0.Keys && v[t] == UserOps
    requires (t, e) in keys <==> Leaves(u0, u1, v, t, e)
    requires UsersWithout(ServedUsers(u0), retired, keys)
    ensures e in retired[t] <==> e in u0[t] && e in u1[t] && u0[t][e] == u1[t][e]
    ensures e in retired[t] ==> retired[t][e] == Served(u0[t][e])
  {
    assert ServedUsers(u0)[t] == ServedTable(u0[t]);
  }

  lemma ChangedTag(u0: UserMap, u1: UserMap, v: map<string, Verdict>, retired: UserMap, keys: set<(string, string)>,
                   mid: UserMap, ops: seq<UserOp>, final: UserMap, t: string)
    requires UsersJudged(u0, u1, v) && t in u1 && t in mid && t in v && v[t] == UserOps
    requires forall e :: (t, e) in keys <==> Leaves(u0, u1, v, t, e)
    requires forall e :: (t, e) in KeySet(ops) <==> Leaves(u1, u0, v, t, e)
    requires UsersWithout(ServedUsers(u0), retired, keys)
    requires UsersWith(mid, final, ops) && mid[t] == retired[t]
    ensures Patched(u1[t], final[t], ops, t)
  {
    forall e ensures e in mid[t] <==> e in u0[t] && e in u1[t] && u0[t][e] == u1[t][e]
             ensures e in mid[t] ==> mid[t][e] == Served(u0[t][e]) {
      UsersStay(u0, u1, v, retired, keys, t, e);
    }
    var added := set e | e in u1[t] && (t, e) in KeySet(ops);
    forall e ensures e in added <==> e in u1[t] && (e !in u0[t] || u0[t][e] != u1[t][e]) {
      assert (t, e) in KeySet(ops) <==> Leaves(u1, u0, v, t, e);
    }
    forall e | e in added ensures e in final[t] {
      var op :| op in ops && Key(op) == (t, e);
    }
    forall e | e !in added ensures (e in final[t] <==> e in mid[t]) && (e in final[t] ==> final[t][e] == mid[t][e]) {
      assert (t, e) in KeySet(ops) <==> Leaves(u1, u0, v, t, e);
    }
    KeptTag(u0[t], u1[t], mid[t], final[t], added);
  }

  lemma NothingLeaves(u0: UserMap, u1: UserMap, v: map<string, Verdict>, retired: UserMap, keys: set<(string, string)>,
                      t: string)
    requires UsersJudged(u0, u1, v) && t in u0 && t in v && v[t] == Keep
    requires forall e :: (t, e) in keys <==> Leaves(u0, u1, v, t, e)
    requires UsersWithout(ServedUsers(u0), retired, keys)
    ensures retired[t] == ServedTable(u1[t])
  {
    assert ServedUsers(u0)[t] == ServedTable(u1[t]);
    forall e ensures (t, e) !in keys { assert !Leaves(u0, u1, v, t, e); }
    assert retired[t].Keys == ServedTable(u1[t]).Keys;
  }

  lemma UnchangedTag(u0: UserMap, u1: UserMap, v: map<string, Verdict>, retired: UserMap, keys: set<(string, string)>,
                     mid: UserMap, ops: seq<UserOp>, final: UserMap, t: string)
    requires UsersJudged(u0, u1, v) && t in u1 && t in mid && !(t in v && v[t] == UserOps)
    requires forall e :: (t, e) in keys <==> Leaves(u0, u1, v, t, e)
    requires forall e :: (t, e) in KeySet(ops) <==> Leaves(u1, u0, v, t, e)
    requires UsersWithout(ServedUsers(u0), retired, keys)
    requires UsersWith(mid, final, ops)
    requires if t in v && v[t] == Keep then mid[t] == retired[t] else mid[t] == ServedTable(u1[t])
    ensures Patched(u1[t], final[t], ops, t)
  {
    if t in v && v[t] == Keep { NothingLeaves(u0, u1, v, retired, keys, t); }
    forall e ensures (t, e) !in KeySet(ops) { assert !Leaves(u1, u0, v, t, e); }
    assert final[t].Keys == mid[t].Keys;
  }

  /** The user table after the handlers were swapped and before users are added. */
  ghost predicate HandlersSwapped(u1: UserMap, v: map<string, Verdict>, retired: UserMap, mid: UserMap) {
    && mid.Keys == u1.Keys
    && forall t :: t in u1 ==>
        mid[t] == if t in v && t in retired && v[t] in {Keep, UserOps} then retired[t] else u1[t]
  }

  lemma SwappedTable(u0: UserMap, u1: UserMap, v: map<string, Verdict>, retired: UserMap,
                     gone: set<string>, back: UserMap)
    requires UsersJudged(u0, u1, v) && retired.Keys == u0.Keys
    requires forall t :: t in gone <==> t in v && v[t] in {Replace, Drop}
    requires forall t :: t in back <==> t in u1 && (t !in v || v[t] == Replace)
    requires forall t :: t in back ==> back[t] == u1[t]
    ensures HandlersSwapped(u1, v, retired, (retired - gone) + back)
  {
  }

  /** The final table: every user of the new config, those added at run time as their accounts carry them. */
  ghost predicate UsersPatched(u1: UserMap, final: UserMap, ops: seq<UserOp>) {
    final.Keys == u1.Keys && forall t :: t in u1 ==> Patched(u1[t], final[t], ops, t)
  }

  lemma UsersEnd(u0: UserMap, u1: UserMap, v: map<string, Verdict>, retired: UserMap, keys: set<(string, string)>,
                 mid: UserMap, ops: seq<UserOp>, final: UserMap)
    requires UsersJudged(u0, u1, v)
    requires forall t, e :: (t, e) in keys <==> Leaves(u0, u1, v, t, e)
    requires forall t, e :: (t, e) in KeySet(ops) <==> Leaves(u1, u0, v, t, e)
    requires UsersWithout(ServedUsers(u0), retired, keys)
    requires HandlersSwapped(ServedUsers(u1), v, retired, mid)
    requires UsersWith(mid, final, ops)
    ensures UsersPatched(u1, final, ops)
  {
    assert final.Keys == u1.Keys;
    forall t | t in u1 ensures Patched(u1[t], final[t], ops, t) {
      assert ServedUsers(u1)[t] == ServedTable(u1[t]);
      if t in v && v[t] == UserOps {
        ChangedTag(u0, u1, v, retired, keys, mid, ops, final, t);
      } else {
        UnchangedTag(u0, u1, v, retired, keys, mid, ops, final, t);
      }
    }
  }

  /** A user of an operation is carried whole. */
  ghost predicate Whole(op: UserOp) {
    op.user.Some? && Forwarded(op.protocol, op.user.value) == Some(Served(op.user.value))
  }

  lemma ServedEntry(u1: UserMap, t: string, e: string)
    requires t in u1 && e in u1[t]
    ensures t in ServedUsers(u1) && e in ServedUsers(u1)[t] && ServedUsers(u1)[t][e] == Served(u1[t][e])
  {
    assert ServedUsers(u1)[t] == ServedTable(u1[t]);
  }

  lemma WholeThen(u1: UserMap, mid: UserMap, final: UserMap, ops: seq<UserOp>)
    requires UsersPatched(u1, final, ops) && UsersWith(mid, final, ops)
    requires forall op :: op in ops ==> op.tag in u1 && op.email in u1[op.tag] && op.user == Some(u1[op.tag][op.email])
    requires forall op :: op in ops ==> Whole(op)
    ensures final == ServedUsers(u1)
  {
    forall t | t in u1 ensures final[t] == ServedTable(u1[t]) {
      assert Patched(u1[t], final[t], ops, t);
      forall e | e in u1[t] ensures final[t][e] == Served(u1[t][e]) {
        if (t, e) in KeySet(ops) {
          var op :| op in ops && Key(op) == (t, e);
        }
      }
    }
  }

  /** The final table is the new config's exactly when every added user is carried whole. */
  lemma PatchedExactly(u1: UserMap, mid: UserMap, final: UserMap, ops: seq<UserOp>)
    requires UsersPatched(u1, final, ops) && UsersWith(mid, final, ops)
    requires forall op :: op in ops ==> op.tag in u1 && op.email in u1[op.tag] && op.user == Some(u1[op.tag][op.email])
    ensures final == ServedUsers(u1) <==> forall op :: op in ops ==> Whole(op)
  {
    if final == ServedUsers(u1) {
      forall op | op in ops ensures Whole(op) {
        ServedEntry(u1, op.tag, op.email);
      }
    }
    if forall op :: op in ops ==> Whole(op) { WholeThen(u1, mid, final, ops); }
  }

  // ---------- outbounds ----------

  lemma {:induction false} SameElementsSameBag(a: seq<Json>, b: seq<Json>)
    requires OutboundsOk(a) && OutboundsOk(b)
    requires forall v :: v in a <==> v in b
    ensures multiset(a) == multiset(b)
  {
    forall v ensures multiset(a)[v] == multiset(b)[v] {
      OnceEach(a, v);
      OnceEach(b, v);
    }
  }

  lemma {:induction false} OnceEach(s: seq<Json>, v: Json)
    requires OutboundsOk(s)
    ensures multiset(s)[v] == if v in s then 1 else 0
  {
    if s != [] {
      var n := |s| - 1;
      assert s == s[..n] + [s[n]];
      assert Tags(s) == Tags(s[..n]) + [TagOf(s[n])];
      PrefixAddressable(Tags(s[..n]), TagOf(s[n]));
      OnceEach(s[..n], v);
      if s[n] in s[..n] { TagsMember(s[..n], s[n]); }
    }
  }

  lemma GoneIs(o: seq<Json>, n: seq<Json>, v: Json)
    requires OutboundsOk(o) && v in o
    ensures TagOf(v) in Gone(o, n) <==> v !in n
  {
    if TagOf(v) in Gone(o, n) {
      var w :| w in o && w !in n && TagOf(w) == TagOf(v);
      TagDetermines(o, v, w);
    }
  }

  lemma AddedOutboundIs(o: seq<Json>, n: seq<Json>, v: Json)
    ensures v in Swapped(o, n) + Unseen(o, n) <==> v in n && v !in o
  {
    if v in o { TagsMember(o, v); }
  }

  /** Distinct entries of one addressable list, in any order, are addressable. */
  lemma SublistAddressable(s: seq<Json>, n: seq<Json>)
    requires OutboundsOk(n)
    requires forall v :: v in s ==> v in n
    requires forall i, j :: 0 <= i < j < |s| ==> s[i] != s[j]
    ensures OutboundsOk(s)
  {
    var ts := Tags(s);
    forall i | 0 <= i < |ts| ensures ts[i] != "" {
      assert s[i] in n;
      TagsMember(n, s[i]);
    }
    forall i, j | 0 <= i < j < |ts| ensures ts[i] != ts[j] {
      if ts[i] == ts[j] {
        assert s[i] in n && s[j] in n;
        TagDetermines(n, s[i], s[j]);
      }
    }
  }

  lemma DistinctEntries(s: seq<Json>)
    requires OutboundsOk(s)
    ensures forall i, j :: 0 <= i < j < |s| ==> s[i] != s[j]
  {
    forall i, j | 0 <= i < j < |s| ensures s[i] != s[j] {
      assert Tags(s)[i] != Tags(s)[j];
    }
  }

  /** What is left of the old list, followed by the additions, is the new list up to order. */
  lemma OutboundsEnd(o: seq<Json>, n: seq<Json>, kept: seq<Json>, added: seq<Json>)
    requires OutboundsOk(o) && OutboundsOk(n) && OutboundsOk(kept)
    requires forall v :: v in kept <==> v in o && v in n
    requires forall v :: v in added <==> v in n && v !in o
    requires forall i, j :: 0 <= i < j < |added| ==> added[i] != added[j]
    ensures OutboundsOk(kept + added) && multiset(kept + added) == multiset(n)
  {
    var s := kept + added;
    DistinctEntries(kept);
    forall i, j | 0 <= i < j < |s| ensures s[i] != s[j] {
      if i < |kept| <= j {
        assert kept[i] in o && added[j - |kept|] !in o;
      }
    }
    assert forall v :: v in s <==> v in kept || v in added;
    SublistAddressable(s, n);
    SameElementsSameBag(s, n);
  }

  lemma OutboundsRun(c: Core, o: seq<Json>, n: seq<Json>, d: Ops) returns (r: seq<Json>)
    requires c.outbounds == o && OutboundsReloadable(Some(o), Some(n)) && OutboundsOk(o) && OutboundsOk(n)
    requires OutboundOps(NO_OPS, d, o, n)
    ensures Run(c, DelOutboundCalls(d.removedOutbounds) + AddOutboundCalls(d.addedOutbounds))
         == Some(c.(outbounds := r))
    ensures multiset(r) == multiset(n) && (|r| > 0 ==> r[0] == n[0])
    ensures |n| > 0 ==> TagOf(o[0]) !in d.removedOutbounds
  {
    assert d.removedOutbounds[0..] == d.removedOutbounds && d.addedOutbounds[0..] == d.addedOutbounds;
    forall t | t in d.removedOutbounds ensures t in Tags(o) {
      var v :| v in o && v !in n && TagOf(v) == t;
      TagsMember(o, v);
    }
    if o != [] { GoneIs(o, n, o[0]); }
    var kept := DelOutboundsRun(c, d.removedOutbounds);
    forall v ensures v in kept <==> v in o && v in n {
      if v in o { GoneIs(o, n, v); }
    }
    forall v ensures v in d.addedOutbounds <==> v in n && v !in o {
      AddedOutboundIs(o, n, v);
    }
    OutboundsEnd(o, n, kept, d.addedOutbounds);
    r := kept + d.addedOutbounds;
    AddOutboundsRun(c.(outbounds := kept), d.addedOutbounds);
    RunBoth(c, DelOutboundCalls(d.removedOutbounds), AddOutboundCalls(d.addedOutbounds));
    if o == [] {
      assert |multiset(r)| == |multiset(n)| == 0;
    }
  }

  // ---------- routing ----------

  function RestOf(raw: Raw): Json
    requires RoutingWithoutReloadable(raw).Some? && raw != ""
  {
    match Decode(raw)
    case Some(Obj(m)) => Obj(m - {"rules", "balancers"})
    case _ => Null
  }

  lemma RestValues(raw: Raw)
    requires RoutingWithoutReloadable(raw).Some? && raw != ""
    ensures Valid(RestOf(raw)) && RoutingWithoutReloadable(raw).value == Print(RestOf(raw))
    ensures RouterOf(raw).Router? && RouterOf(raw).rest == RestOf(raw)
  {
  }

  lemma SameRest(o: Raw, n: Raw)
    requires RoutingReloadable(o, n) && o != n
    ensures RouterOf(o).Router? && RouterOf(n).Router? && RouterOf(o).rest == RouterOf(n).rest
  {
    RestValues(o);
    RestValues(n);
    PrintInjective(RestOf(o), RestOf(n));
  }

  lemma RoutingApplied(c: Core, n: Raw)
    requires c.router.Router? && RouterOf(n).Router? && c.router.rest == RouterOf(n).rest
    ensures Perform(c, CallRouting(n)) == Some(c.(router := RouterOf(n)))
  {
  }

  lemma RouterEnd(c: Core, o: Raw, n: Raw)
    requires RoutingReloadable(o, n) && c.router == RouterOf(o)
    ensures Run(c, RoutingCalls(if o == n then None else Some(n))) == Some(c.(router := RouterOf(n)))
  {
    if o != n {
      SameRest(o, n);
      RunSnoc(c, [], CallRouting(n));
      RoutingApplied(c, n);
      assert [] + [CallRouting(n)] == [CallRouting(n)];
    }
  }

  // ---------- the user operations ----------

  ghost predicate OperationFits(u0: UserMap, u1: UserMap, v: map<string, Verdict>, adding: bool, op: UserOp) {
    if adding
    then Leaves(u1, u0, v, op.tag, op.email) && op.user == Some(u1[op.tag][op.email])
    else Leaves(u0, u1, v, op.tag, op.email) && op.user == None
  }

  /** The same in terms of one inbound. */
  lemma FitsAt(o: map<string, InboundConfig>, n: map<string, InboundConfig>, v: map<string, Verdict>, adding: bool,
               op: UserOp)
    requires op.tag in o && v.Keys == o.Keys && (v[op.tag] == UserOps ==> op.tag in n)
    ensures OperationFits(UsersByTag(o), UsersByTag(n), v, adding, op) <==>
      && v[op.tag] == UserOps
      && var (a, b) := (Users(o[op.tag]), Users(n[op.tag]));
         if adding
         then op.email in b && (op.email !in a || a[op.email] != b[op.email]) && op.user == Some(b[op.email])
         else op.email in a && (op.email !in b || b[op.email] != a[op.email]) && op.user == None
  {
  }

  lemma OperationIs(o: seq<InboundConfig>, n: seq<InboundConfig>, apiTag: string, adding: bool, op: UserOp)
    requires TagsOk(o)
    ensures op in UserOpsFor(o, ByTag(n), apiTag, adding) <==>
      && op.tag in ByTag(o) && op.protocol == ByTag(o)[op.tag].protocol
      && OperationFits(UsersByTag(ByTag(o)), UsersByTag(ByTag(n)), Verdicts(o, ByTag(n), apiTag), adding, op)
  {
    UserOpIs(o, ByTag(n), apiTag, adding, op);
    if op.tag in ByTag(o) {
      ByTagTags(o);
      UserOpAtIs(ByTag(o)[op.tag], ByTag(n), apiTag, adding, op);
      FitsAt(ByTag(o), ByTag(n), Verdicts(o, ByTag(n), apiTag), adding, op);
    }
  }

  lemma UserOpAtIs(ib: InboundConfig, newByTag: map<string, InboundConfig>, apiTag: string, adding: bool, op: UserOp)
    requires op.tag == ib.tag
    ensures op in UserOpsAt(ib, newByTag, apiTag, adding) <==>
      && Judge(ib, newByTag, apiTag) == UserOps
      && op.protocol == ib.protocol
      && var (a, b) := (Users(ib), Users(newByTag[ib.tag]));
         if adding
         then op.email in b && (op.email !in a || b[op.email] != a[op.email]) && op.user == Some(b[op.email])
         else op.email in a && (op.email !in b || b[op.email] != a[op.email]) && op.user == None
  {
  }

  lemma OperationsFit(o: seq<InboundConfig>, n: seq<InboundConfig>, apiTag: string, ops: seq<UserOp>, adding: bool)
    requires TagsOk(o)
    requires Enumerates(ops, UserOpsFor(o, ByTag(n), apiTag, adding))
    ensures DistinctKeys(ops)
    ensures var u0, u1, v := UsersByTag(ByTag(o)), UsersByTag(ByTag(n)), Verdicts(o, ByTag(n), apiTag);
      && (forall op :: op in ops ==> OperationFits(u0, u1, v, adding, op))
      && (forall t, e :: (t, e) in KeySet(ops) <==> if adding then Leaves(u1, u0, v, t, e) else Leaves(u0, u1, v, t, e))
  {
    var u0, u1, v := UsersByTag(ByTag(o)), UsersByTag(ByTag(n)), Verdicts(o, ByTag(n), apiTag);
    forall op ensures op in ops <==>
        op.tag in ByTag(o) && op.protocol == ByTag(o)[op.tag].protocol && OperationFits(u0, u1, v, adding, op) {
      OperationIs(o, n, apiTag, adding, op);
    }
    forall i, j | 0 <= i < j < |ops| ensures Key(ops[i]) != Key(ops[j]) {
      assert ops[i] in ops && ops[j] in ops;
    }
    forall t, e | if adding then Leaves(u1, u0, v, t, e) else Leaves(u0, u1, v, t, e) ensures (t, e) in KeySet(ops) {
      var op := UserOp(t, ByTag(o)[t].protocol, e, if adding then Some(u1[t][e]) else None);
      assert OperationFits(u0, u1, v, adding, op);
      assert op in ops && Key(op) == (t, e);
    }
  }

  // ---------- the main theorem ----------

  /** What the verdicts of a reloadable change say about the two sets of handlers. */
  ghost predicate HandlersJudged(h0: map<string, Handler>, h1: map<string, Handler>, v: map<string, Verdict>) {
    && v.Keys == h0.Keys
    && forall t :: t in v ==>
        && v[t] != Refuse
        && (v[t] == Drop <==> t !in h1)
        && (v[t] in {Keep, UserOps} ==> h1[t] == h0[t])
  }

  lemma Judged(o: seq<InboundConfig>, n: seq<InboundConfig>, apiTag: string)
    requires InboundsReloadable(o, n, apiTag)
    ensures HandlersJudged(Frames(ByTag(o)), Frames(ByTag(n)), Verdicts(o, ByTag(n), apiTag))
    ensures UsersJudged(UsersByTag(ByTag(o)), UsersByTag(ByTag(n)), Verdicts(o, ByTag(n), apiTag))
  {
    forall t | t in ByTag(o) ensures var v := Judge(ByTag(o)[t], ByTag(n), apiTag);
      && v != Refuse
      && (v == Drop <==> t !in ByTag(n))
      && (v in {Keep, UserOps} ==> FrameOf(ByTag(o)[t]) == FrameOf(ByTag(n)[t]))
      && (v == Keep ==> Users(ByTag(o)[t]) == Users(ByTag(n)[t]))
    {
      ByTagKeys(o, t);
      JudgeMeans(ByTag(o)[t], ByTag(n), apiTag);
    }
  }

  lemma JudgeMeans(ib: InboundConfig, newByTag: map<string, InboundConfig>, apiTag: string)
    ensures var v := Judge(ib, newByTag, apiTag);
      && (v == Drop ==> ib.tag !in newByTag)
      && (v in {Keep, UserOps, Replace} ==> ib.tag in newByTag)
      && (v in {Keep, UserOps} ==> FrameOf(ib) == FrameOf(newByTag[ib.tag]))
      && (v == Keep ==> Users(ib) == Users(newByTag[ib.tag]))
  {
    match Judge(ib, newByTag, apiTag)
    case Keep => EqualInboundsServeAlike(ib, newByTag[ib.tag]);
    case UserOps => OnlyUsersDifferSameFrame(ib, newByTag[ib.tag]);
    case _ =>
  }

  lemma AddedInboundIs(o: seq<InboundConfig>, n: seq<InboundConfig>, apiTag: string, added: seq<InboundConfig>,
                       ib: InboundConfig)
    requires TagsOk(o) && TagsOk(n)
    requires Enumerates(added, Readded(o, ByTag(n), apiTag) + Novel(n, ByTag(o)))
    ensures ib in added <==>
      && ib.tag in ByTag(n) && ByTag(n)[ib.tag] == ib
      && (ib.tag !in ByTag(o) || Verdicts(o, ByTag(n), apiTag)[ib.tag] == Replace)
  {
    ByTagTags(n);
    ReaddedIs(o, ByTag(n), apiTag, ib);
    NovelIs(n, ByTag(o), ib);
  }

  /** A list of some inbounds of a table, each once, has that part of the table as its own. */
  ghost predicate PartOf(table: map<string, InboundConfig>, added: seq<InboundConfig>, tags: set<string>) {
    && (forall t :: t in table ==> t != "" && table[t].tag == t)
    && tags <= table.Keys && (forall ib :: ib in added <==> ib.tag in tags && table[ib.tag] == ib)
    && (forall i, j :: 0 <= i < j < |added| ==> added[i] != added[j])
  }

  lemma PartIsTagged(table: map<string, InboundConfig>, added: seq<InboundConfig>, tags: set<string>)
    requires PartOf(table, added, tags)
    ensures TagsOk(added)
  {
    forall i | 0 <= i < |added| ensures added[i].tag != "" && table[added[i].tag] == added[i] {
      assert added[i] in added;
    }
  }

  lemma PartOfTable(table: map<string, InboundConfig>, added: seq<InboundConfig>, tags: set<string>)
    requires PartOf(table, added, tags)
    ensures TagsOk(added) && ByTag(added).Keys == tags
    ensures forall t :: t in tags ==> ByTag(added)[t] == table[t]
  {
    PartIsTagged(table, added, tags);
    forall t | t in ByTag(added) ensures t in tags && ByTag(added)[t] == table[t] {
      ByTagKeys(added, t);
    }
    forall t | t in tags ensures t in ByTag(added) {
      assert table[t] in added;
      var i :| 0 <= i < |added| && added[i] == table[t];
      ByTagAt(added, i);
    }
  }

  lemma ByTagNames(n: seq<InboundConfig>, t: string)
    requires TagsOk(n) && t in ByTag(n)
    ensures t != "" && ByTag(n)[t].tag == t
  {
    ByTagKeys(n, t);
  }

  /** The tags under which a diff adds inbounds: those replaced and the new ones. */
  function AddedTags(n: map<string, InboundConfig>, v: map<string, Verdict>): set<string> {
    set t | t in n && (t !in v || v[t] == Replace)
  }

  lemma AddedInbounds(o: seq<InboundConfig>, n: seq<InboundConfig>, apiTag: string, added: seq<InboundConfig>)
    requires TagsOk(o) && TagsOk(n)
    requires Enumerates(added, Readded(o, ByTag(n), apiTag) + Novel(n, ByTag(o)))
    ensures PartOf(ByTag(n), added, AddedTags(ByTag(n), Verdicts(o, ByTag(n), apiTag)))
  {
    var (table, v) := (ByTag(n), Verdicts(o, ByTag(n), apiTag));
    forall t | t in table ensures t != "" && table[t].tag == t { ByTagNames(n, t); }
    forall ib ensures ib in added <==> ib.tag in AddedTags(table, v) && table[ib.tag] == ib {
      AddedInboundIs(o, n, apiTag, added, ib);
    }
  }

  /** The inbound half of the calls, as one chain. */
  lemma InboundsRun(c: Core, o: seq<InboundConfig>, n: seq<InboundConfig>, apiTag: string, d: Ops)
      returns (retired: UserMap, mid: Core)
    requires c.handlers == Frames(ByTag(o)) && c.users == ServedUsers(UsersByTag(ByTag(o)))
    requires InboundsReloadable(o, n, apiTag) && InboundOps(NO_OPS, d, o, n, apiTag)
    ensures mid == c.(handlers := c.handlers - Elements(d.removedInbounds),
                      users := retired - Elements(d.removedInbounds))
    ensures Run(c, RemoveUserCalls(d.removedUsers) + DelInboundCalls(d.removedInbounds)) == Some(mid)
    ensures UsersWithout(c.users, retired, KeySet(d.removedUsers))
    ensures forall t :: t in d.removedInbounds <==> t in Removed(o, ByTag(n), apiTag)
  {
    assert d.removedUsers[0..] == d.removedUsers && d.removedInbounds[0..] == d.removedInbounds;
    OperationsFit(o, n, apiTag, d.removedUsers, false);
    retired := RemoveUsersRun(c, d.removedUsers);
    forall t | t in d.removedInbounds ensures t in c.handlers {
      RemovedIs(o, ByTag(n), apiTag, t);
    }
    DelInboundsRun(c.(users := retired), d.removedInbounds);
    RunBoth(c, RemoveUserCalls(d.removedUsers), DelInboundCalls(d.removedInbounds));
    mid := c.(handlers := c.handlers - Elements(d.removedInbounds), users := retired - Elements(d.removedInbounds));
  }

  lemma GoneTags(o: seq<InboundConfig>, newByTag: map<string, InboundConfig>, apiTag: string, tags: seq<string>)
    requires TagsOk(o) && Enumerates(tags, Removed(o, newByTag, apiTag))
    ensures forall t ::
      t in Elements(tags) <==> t in ByTag(o) && Verdicts(o, newByTag, apiTag)[t] in {Replace, Drop}
  {
    forall t ensures t in Elements(tags) <==> t in ByTag(o) && Verdicts(o, newByTag, apiTag)[t] in {Replace, Drop} {
      RemovedIs(o, newByTag, apiTag, t);
    }
  }

  /** The inbounds taken away and those added are the ones the verdicts say. */
  ghost predicate Exchanged(o: map<string, InboundConfig>, n: map<string, InboundConfig>, v: map<string, Verdict>,
                            gone: set<string>, added: map<string, InboundConfig>) {
    && v.Keys == o.Keys
    && (forall t :: t in gone <==> t in v && v[t] in {Replace, Drop})
    && (forall t :: t in added <==> t in n && (t !in v || v[t] == Replace))
    && (forall t :: t in added ==> added[t] == n[t])
  }

  lemma PartExchanged(o: map<string, InboundConfig>, n: map<string, InboundConfig>, v: map<string, Verdict>,
                      gone: set<string>, added: seq<InboundConfig>)
    requires v.Keys == o.Keys && forall t :: t in gone <==> t in v && v[t] in {Replace, Drop}
    requires PartOf(n, added, AddedTags(n, v))
    ensures TagsOk(added) && Exchanged(o, n, v, gone, ByTag(added))
  {
    PartOfTable(n, added, AddedTags(n, v));
  }

  lemma ExchangedByDiff(o: seq<InboundConfig>, n: seq<InboundConfig>, apiTag: string, gone: set<string>,
                        added: seq<InboundConfig>)
    requires TagsOk(o) && TagsOk(n)
    requires forall t :: t in gone <==> t in ByTag(o) && Verdicts(o, ByTag(n), apiTag)[t] in {Replace, Drop}
    requires Enumerates(added, Readded(o, ByTag(n), apiTag) + Novel(n, ByTag(o)))
    ensures TagsOk(added) && Exchanged(ByTag(o), ByTag(n), Verdicts(o, ByTag(n), apiTag), gone, ByTag(added))
  {
    AddedInbounds(o, n, apiTag, added);
    PartExchanged(ByTag(o), ByTag(n), Verdicts(o, ByTag(n), apiTag), gone, added);
  }

  /** Handlers and users just before the user additions. */
  lemma HandlersRun(c: Core, retired: UserMap, o: seq<InboundConfig>, n: seq<InboundConfig>, apiTag: string,
                    gone: set<string>, added: seq<InboundConfig>) returns (mid: UserMap)
    requires InboundsReloadable(o, n, apiTag)
    requires forall t :: t in gone <==> t in ByTag(o) && Verdicts(o, ByTag(n), apiTag)[t] in {Replace, Drop}
    requires Enumerates(added, Readded(o, ByTag(n), apiTag) + Novel(n, ByTag(o)))
    requires c.handlers == Frames(ByTag(o)) - gone
    requires c.users == retired - gone
    requires retired.Keys == ByTag(o).Keys
    ensures Run(c, AddInboundCalls(added)) == Some(c.(handlers := Frames(ByTag(n)), users := mid))
    ensures HandlersSwapped(ServedUsers(UsersByTag(ByTag(n))), Verdicts(o, ByTag(n), apiTag), retired, mid)
  {
    ExchangedByDiff(o, n, apiTag, gone, added);
    NothingInTheWay(ByTag(o), ByTag(n), Verdicts(o, ByTag(n), apiTag), gone, ByTag(added));
    AddInboundsRun(c, added);
    SwapTables(o, n, apiTag, retired, gone, ByTag(added));
    mid := c.users + ServedUsers(UsersByTag(ByTag(added)));
  }

  lemma NothingInTheWay(o: map<string, InboundConfig>, n: map<string, InboundConfig>, v: map<string, Verdict>,
                        gone: set<string>, added: map<string, InboundConfig>)
    requires Exchanged(o, n, v, gone, added)
    ensures added.Keys !! (Frames(o) - gone).Keys
  {
  }

  lemma SwapHandlers(o: map<string, InboundConfig>, n: map<string, InboundConfig>, v: map<string, Verdict>,
                     gone: set<string>, added: map<string, InboundConfig>)
    requires Exchanged(o, n, v, gone, added) && HandlersJudged(Frames(o), Frames(n), v)
    ensures (Frames(o) - gone) + Frames(added) == Frames(n)
  {
    HandlersEnd(Frames(o), Frames(n), v, gone, Frames(added));
  }

  lemma SwapUsers(o: map<string, InboundConfig>, n: map<string, InboundConfig>, v: map<string, Verdict>,
                  retired: UserMap, gone: set<string>, added: map<string, InboundConfig>)
    requires Exchanged(o, n, v, gone, added) && retired.Keys == o.Keys && UsersJudged(UsersByTag(o), UsersByTag(n), v)
    ensures HandlersSwapped(ServedUsers(UsersByTag(n)), v, retired, (retired - gone) + ServedUsers(UsersByTag(added)))
  {
    ServedJudged(UsersByTag(o), UsersByTag(n), v);
    SwappedTable(ServedUsers(UsersByTag(o)), ServedUsers(UsersByTag(n)), v, retired, gone,
                 ServedUsers(UsersByTag(added)));
  }

  lemma SwapTables(o: seq<InboundConfig>, n: seq<InboundConfig>, apiTag: string, retired: UserMap,
                   gone: set<string>, added: map<string, InboundConfig>)
    requires InboundsReloadable(o, n, apiTag) && retired.Keys == ByTag(o).Keys
    requires Exchanged(ByTag(o), ByTag(n), Verdicts(o, ByTag(n), apiTag), gone, added)
    ensures (Frames(ByTag(o)) - gone) + Frames(added) == Frames(ByTag(n))
    ensures HandlersSwapped(ServedUsers(UsersByTag(ByTag(n))), Verdicts(o, ByTag(n), apiTag), retired,
                            (retired - gone) + ServedUsers(UsersByTag(added)))
  {
    Judged(o, n, apiTag);
    SwapHandlers(ByTag(o), ByTag(n), Verdicts(o, ByTag(n), apiTag), gone, added);
    SwapUsers(ByTag(o), ByTag(n), Verdicts(o, ByTag(n), apiTag), retired, gone, added);
  }

  /** The inbound additions of the calls, and the stage for the user additions. */
  lemma AdditionsStage(c: Core, retired: UserMap, o: seq<InboundConfig>, n: seq<InboundConfig>,
                       apiTag: string, d: Ops) returns (mid: UserMap)
    requires InboundsReloadable(o, n, apiTag) && InboundOps(NO_OPS, d, o, n, apiTag)
    requires c.handlers == Frames(ByTag(o)) - Elements(d.removedInbounds)
    requires c.users == retired - Elements(d.removedInbounds)
    requires UsersWithout(ServedUsers(UsersByTag(ByTag(o))), retired, KeySet(d.removedUsers))
    ensures Run(c, AddInboundCalls(d.addedInbounds)) == Some(c.(handlers := Frames(ByTag(n)), users := mid))
    ensures HandlersSwapped(ServedUsers(UsersByTag(ByTag(n))), Verdicts(o, ByTag(n), apiTag), retired, mid)
  {
    assert d.addedInbounds[0..] == d.addedInbounds && d.removedInbounds[0..] == d.removedInbounds;
    GoneTags(o, ByTag(n), apiTag, d.removedInbounds);
    mid := HandlersRun(c, retired, o, n, apiTag, Elements(d.removedInbounds), d.addedInbounds);
  }

  /** The user additions on that stage: they go through exactly when every client is accepted, and give the new
      config's users exactly when every client is carried whole. */
  lemma JoinRun(c: Core, u0: UserMap, u1: UserMap, v: map<string, Verdict>, retired: UserMap, d: Ops)
      returns (final: UserMap)
    requires UsersDiffer(u0, u1, v, d)
    requires UsersWithout(ServedUsers(u0), retired, KeySet(d.removedUsers))
    requires HandlersSwapped(ServedUsers(u1), v, retired, c.users)
    requires forall op :: op in d.addedUsers ==> Accepted(op)
    ensures Run(c, AddUserCalls(d.addedUsers)) == Some(c.(users := final))
    ensures UsersPatched(u1, final, d.addedUsers)
    ensures final == ServedUsers(u1) <==> forall op :: op in d.addedUsers ==> Whole(op)
  {
    var keys, ops := KeySet(d.removedUsers), d.addedUsers;
    forall op | op in ops ensures op.tag in c.users && op.email !in c.users[op.tag] {
      FreeToJoin(u0, u1, v, retired, keys, c.users, op.tag, op.email);
    }
    final := AddUsersRun(c, ops);
    UsersEnd(u0, u1, v, retired, keys, c.users, ops, final);
    PatchedExactly(u1, c.users, final, ops);
  }

  /** A user about to be added is not in the table: new, or removed before. */
  lemma FreeToJoin(u0: UserMap, u1: UserMap, v: map<string, Verdict>, retired: UserMap, keys: set<(string, string)>,
                   mid: UserMap, t: string, e: string)
    requires UsersJudged(u0, u1, v) && Leaves(u1, u0, v, t, e)
    requires forall t, e :: (t, e) in keys <==> Leaves(u0, u1, v, t, e)
    requires UsersWithout(ServedUsers(u0), retired, keys)
    requires HandlersSwapped(ServedUsers(u1), v, retired, mid)
    ensures t in mid && e !in mid[t]
  {
    assert (t, e) in keys <==> Leaves(u0, u1, v, t, e);
    UsersStay(u0, u1, v, retired, keys, t, e);
  }

  /** The sections without a reload API agree, one by one, in whatever `m` takes from them. */
  ghost predicate SectionsAgree<T>(o: Config, n: Config, m: Raw -> T) {
    && m(o.log) == m(n.log)
    && m(o.dns) == m(n.dns)
    && m(o.transport) == m(n.transport)
    && m(o.policy) == m(n.policy)
    && m(o.api) == m(n.api)
    && m(o.stats) == m(n.stats)
    && m(o.reverse) == m(n.reverse)
    && m(o.fakeDns) == m(n.fakeDns)
    && m(o.observatory) == m(n.observatory)
    && m(o.burstObservatory) == m(n.burstObservatory)
    && m(o.metrics) == m(n.metrics)
    && m(o.geodata) == m(n.geodata)
    && m(o.env) == m(n.env)
  }

  lemma SectionsListed<T>(o: Config, n: Config, m: Raw -> T)
    ensures SectionsAgree(o, n, m) <==>
      forall i :: 0 <= i < |StaticSections(o)| ==> m(StaticSections(o)[i]) == m(StaticSections(n)[i])
  {
    var (a, b) := (StaticSections(o), StaticSections(n));
    if forall i :: 0 <= i < |a| ==> m(a[i]) == m(b[i]) {
      assert m(a[0]) == m(b[0]) && m(a[1]) == m(b[1]) && m(a[2]) == m(b[2]) && m(a[3]) == m(b[3]);
      assert m(a[4]) == m(b[4]) && m(a[5]) == m(b[5]) && m(a[6]) == m(b[6]) && m(a[7]) == m(b[7]);
      assert m(a[8]) == m(b[8]) && m(a[9]) == m(b[9]) && m(a[10]) == m(b[10]) && m(a[11]) == m(b[11]);
      assert m(a[12]) == m(b[12]);
    }
  }

  lemma EachSection(o: Config, n: Config, i: nat)
    requires i < |StaticSections(o)|
    ensures RawEqualNormalized(StaticSections(o)[i], StaticSections(n)[i]) <==>
      Meaning(StaticSections(o)[i]) == Meaning(StaticSections(n)[i])
  {
    RawEqualIffSameMeaning(StaticSections(o)[i], StaticSections(n)[i]);
  }

  lemma EachSectionMeans(o: Config, n: Config)
    ensures StaticsEqual(o, n) <==>
      forall i :: 0 <= i < |StaticSections(o)| ==> Meaning(StaticSections(o)[i]) == Meaning(StaticSections(n)[i])
  {
    forall i: nat | i < |StaticSections(o)|
      ensures RawEqualNormalized(StaticSections(o)[i], StaticSections(n)[i]) <==>
        Meaning(StaticSections(o)[i]) == Meaning(StaticSections(n)[i])
    {
      EachSection(o, n, i);
    }
  }

  /** The comparison of sections covers each of the thirteen. */
  lemma StaticsFieldByField(o: Config, n: Config)
    ensures StaticsEqual(o, n) <==> SectionsAgree(o, n, Meaning)
  {
    EachSectionMeans(o, n);
    SectionsListed(o, n, Meaning);
  }

  lemma StaticsServeAlike(o: Config, n: Config)
    requires StaticsEqual(o, n)
    ensures Boot(o).statics == Boot(n).statics
  {
    StaticsFieldByField(o, n);
  }

  lemma JudgedUserOps(ib: InboundConfig, newByTag: map<string, InboundConfig>, apiTag: string)
    requires Judge(ib, newByTag, apiTag) == UserOps
    ensures ib.tag in newByTag && ib.protocol == newByTag[ib.tag].protocol && UserDiffable(ib.protocol)
    ensures SplitSettings(newByTag[ib.tag].settings).Some? && !HasReverseClient(newByTag[ib.tag])
  {
  }

  /** The added users are clients of the new config, under their own emails, on diffable inbounds. */
  lemma AddedUsersAre(o: seq<InboundConfig>, n: seq<InboundConfig>, apiTag: string, ops: seq<UserOp>, op: UserOp)
    requires TagsOk(o) && Enumerates(ops, UserOpsFor(o, ByTag(n), apiTag, true)) && op in ops
    ensures op.tag in ByTag(n) && op.protocol == ByTag(n)[op.tag].protocol && UserDiffable(op.protocol)
    ensures SplitSettings(ByTag(n)[op.tag].settings).Some? && !HasReverseClient(ByTag(n)[op.tag])
    ensures op.email in Users(ByTag(n)[op.tag]) && op.user == Some(Users(ByTag(n)[op.tag])[op.email])
    ensures op.user.value.Obj? && EmailOf(op.user.value) == op.email != ""
  {
    UserOpIs(o, ByTag(n), apiTag, true, op);
    ByTagTags(o);
    UserOpAtIs(ByTag(o)[op.tag], ByTag(n), apiTag, true, op);
    JudgedUserOps(ByTag(o)[op.tag], ByTag(n), apiTag);
    SplitUsers(ByTag(n)[op.tag].settings, op.email);
  }

  /** What holds before the user additions: everything of the new config is served but routing and users, and the
      users are those the old config leaves. */
  ghost predicate AtStage(o: Config, n: Config, d: Ops, retired: UserMap, stage: Core)
    requires Reloadable(o, n)
  {
    && stage.handlers == Frames(ByTag(n.inbounds))
    && stage.router == RouterOf(o.routing)
    && multiset(stage.outbounds) == multiset(Outbounds(n.outbounds).value)
    && (|stage.outbounds| > 0 ==> stage.outbounds[0] == Outbounds(n.outbounds).value[0])
    && UsersWithout(ServedUsers(UsersByTag(ByTag(o.inbounds))), retired, KeySet(d.removedUsers))
    && HandlersSwapped(ServedUsers(UsersByTag(ByTag(n.inbounds))),
                       Verdicts(o.inbounds, ByTag(n.inbounds), ApiTag(n.api)), retired, stage.users)
  }

  /** The calls up to the outbound additions. */
  lemma StagedGone(c: Core, o: seq<InboundConfig>, n: seq<InboundConfig>, apiTag: string,
                   oo: seq<Json>, no: seq<Json>, d: Ops) returns (retired: UserMap, c2: Core, c4: Core)
    requires InboundsReloadable(o, n, apiTag) && InboundOps(NO_OPS, d, o, n, apiTag)
    requires OutboundsReloadable(Some(oo), Some(no)) && OutboundsOk(oo) && OutboundsOk(no)
    requires OutboundOps(NO_OPS, d, oo, no)
    requires c.handlers == Frames(ByTag(o)) && c.users == ServedUsers(UsersByTag(ByTag(o))) && c.outbounds == oo
    ensures Run(c, RemoveUserCalls(d.removedUsers) + DelInboundCalls(d.removedInbounds)) == Some(c2)
    ensures Run(c2, DelOutboundCalls(d.removedOutbounds) + AddOutboundCalls(d.addedOutbounds)) == Some(c4)
    ensures c4 == c.(handlers := c.handlers - Elements(d.removedInbounds),
                     users := retired - Elements(d.removedInbounds), outbounds := c4.outbounds)
    ensures multiset(c4.outbounds) == multiset(no) && (|c4.outbounds| > 0 ==> c4.outbounds[0] == no[0])
    ensures UsersWithout(c.users, retired, KeySet(d.removedUsers))
  {
    retired, c2 := InboundsRun(c, o, n, apiTag, d);
    var out := OutboundsRun(c2, oo, no, d);
    c4 := c2.(outbounds := out);
  }

  /** The stretch of the calls before any user is added: it always goes through. */
  lemma Staged(c: Core, o: Config, n: Config, d: Ops) returns (retired: UserMap, stage: Core)
    requires Reloadable(o, n) && Describes(d, o, n)
    requires c.handlers == Frames(ByTag(o.inbounds)) && c.users == ServedUsers(UsersByTag(ByTag(o.inbounds)))
    requires c.outbounds == Outbounds(o.outbounds).value && c.router == RouterOf(o.routing)
    ensures Run(c, FirstCalls(d)) == Some(stage) && stage.statics == c.statics
    ensures AtStage(o, n, d, retired, stage)
  {
    OutboundsAreOk(o.outbounds);
    OutboundsAreOk(n.outbounds);
    var left, c2, c4 := StagedGone(c, o.inbounds, n.inbounds, ApiTag(n.api), Outbounds(o.outbounds).value,
                                   Outbounds(n.outbounds).value, d);
    retired := left;
    var mid := AdditionsStage(c4, retired, o.inbounds, n.inbounds, ApiTag(n.api), d);
    stage := c4.(handlers := Frames(ByTag(n.inbounds)), users := mid);
    ChainFirst(c, d, c2, c4, stage);
  }

  /** The calls before the user additions, and the user additions with the routing. */
  function FirstCalls(d: Ops): seq<Call> {
    (RemoveUserCalls(d.removedUsers) + DelInboundCalls(d.removedInbounds))
    + (DelOutboundCalls(d.removedOutbounds) + AddOutboundCalls(d.addedOutbounds)) + AddInboundCalls(d.addedInbounds)
  }

  lemma ChainFirst(c: Core, d: Ops, c2: Core, c4: Core, c5: Core)
    requires Run(c, RemoveUserCalls(d.removedUsers) + DelInboundCalls(d.removedInbounds)) == Some(c2)
    requires Run(c2, DelOutboundCalls(d.removedOutbounds) + AddOutboundCalls(d.addedOutbounds)) == Some(c4)
    requires Run(c4, AddInboundCalls(d.addedInbounds)) == Some(c5)
    ensures Run(c, FirstCalls(d)) == Some(c5)
  {
    var a := RemoveUserCalls(d.removedUsers) + DelInboundCalls(d.removedInbounds);
    var b := DelOutboundCalls(d.removedOutbounds) + AddOutboundCalls(d.addedOutbounds);
    RunBoth(c, a, b);
    RunBoth(c, a + b, AddInboundCalls(d.addedInbounds));
  }

  lemma CallsRegrouped(d: Ops)
    ensures Calls(d) == FirstCalls(d) + AddUserCalls(d.addedUsers) + RoutingCalls(d.routing)
  {
    var a, b := RemoveUserCalls(d.removedUsers), DelInboundCalls(d.removedInbounds);
    var e, f := DelOutboundCalls(d.removedOutbounds), AddOutboundCalls(d.addedOutbounds);
    assert a + b + e + f == (a + b) + (e + f);
  }

  /** What the diff says about users, by the two configs' tables. */
  ghost predicate UsersDiffer(u0: UserMap, u1: UserMap, v: map<string, Verdict>, d: Ops) {
    && UsersJudged(u0, u1, v) && DistinctKeys(d.addedUsers)
    && (forall t, e :: (t, e) in KeySet(d.removedUsers) <==> Leaves(u0, u1, v, t, e))
    && (forall t, e :: (t, e) in KeySet(d.addedUsers) <==> Leaves(u1, u0, v, t, e))
    && (forall op :: op in d.addedUsers ==> OperationFits(u0, u1, v, true, op) && EmailOf(op.user.value) == op.email)
  }

  lemma UsersOfDiff(o: seq<InboundConfig>, n: seq<InboundConfig>, apiTag: string, d: Ops)
    requires InboundsReloadable(o, n, apiTag) && InboundOps(NO_OPS, d, o, n, apiTag)
    ensures UsersDiffer(UsersByTag(ByTag(o)), UsersByTag(ByTag(n)), Verdicts(o, ByTag(n), apiTag), d)
  {
    assert d.addedUsers[0..] == d.addedUsers && d.removedUsers[0..] == d.removedUsers;
    OperationsFit(o, n, apiTag, d.removedUsers, false);
    OperationsFit(o, n, apiTag, d.addedUsers, true);
    Judged(o, n, apiTag);
    forall op | op in d.addedUsers ensures EmailOf(op.user.value) == op.email {
      AddedUsersAre(o, n, apiTag, d.addedUsers, op);
    }
  }

  /** The calls after the stage, when every client is accepted. */
  lemma LastCalls(c: Core, d: Ops, stage: Core, final: UserMap, o: Raw, n: Raw)
    requires Run(c, FirstCalls(d)) == Some(stage) && stage.router == RouterOf(o)
    requires Run(stage, AddUserCalls(d.addedUsers)) == Some(stage.(users := final))
    requires RoutingReloadable(o, n) && d.routing == if o == n then None else Some(n)
    ensures Run(c, Calls(d)) == Some(stage.(users := final, router := RouterOf(n)))
  {
    CallsRegrouped(d);
    RunBoth(c, FirstCalls(d), AddUserCalls(d.addedUsers));
    RouterEnd(stage.(users := final), o, n);
    RunBoth(c, FirstCalls(d) + AddUserCalls(d.addedUsers), RoutingCalls(d.routing));
  }

  lemma ServesTheRest(o: Config, n: Config, d: Ops, retired: UserMap, stage: Core, final: UserMap)
    requires Reloadable(o, n) && AtStage(o, n, d, retired, stage) && stage.statics == Boot(o).statics
    ensures SameService(stage.(users := Boot(n).users, router := RouterOf(n.routing)), Boot(n))
  {
    StaticsServeAlike(o, n);
  }

  /** All of the new config is served, and its users up to what accounts carry. */
  ghost predicate Finished(n: Config, d: Ops, r: Core) {
    && SameService(r.(users := Boot(n).users), Boot(n))
    && UsersPatched(UsersByTag(ByTag(n.inbounds)), r.users, d.addedUsers)
    && (r.users == Boot(n).users <==> forall op :: op in d.addedUsers ==> Whole(op))
  }

  /** From the stage on, when every client is accepted. */
  lemma AcceptedRuns(c: Core, o: Config, n: Config, d: Ops, retired: UserMap, stage: Core)
    requires Reloadable(o, n) && Describes(d, o, n) && forall op :: op in d.addedUsers ==> Accepted(op)
    requires Run(c, FirstCalls(d)) == Some(stage) && AtStage(o, n, d, retired, stage)
    requires stage.statics == Boot(o).statics
    ensures var r := Run(c, Calls(d)); r.Some? && Finished(n, d, r.value)
  {
    UsersOfDiff(o.inbounds, n.inbounds, ApiTag(n.api), d);
    var final := JoinRun(stage, UsersByTag(ByTag(o.inbounds)), UsersByTag(ByTag(n.inbounds)),
                         Verdicts(o.inbounds, ByTag(n.inbounds), ApiTag(n.api)), retired, d);
    LastCalls(c, d, stage, final, o.routing, n.routing);
    ServesTheRest(o, n, d, retired, stage, final);
  }

  /** A core that runs the old config. */
  ghost predicate RunsConfig(c: Core, o: Config) {
    && c.handlers == Frames(ByTag(o.inbounds)) && c.users == ServedUsers(UsersByTag(ByTag(o.inbounds)))
    && (Outbounds(o.outbounds).Some? ==> c.outbounds == Outbounds(o.outbounds).value)
    && c.router == RouterOf(o.routing) && c.statics == Boot(o).statics
  }

  lemma RunsFrom(c: Core, o: Config, n: Config, d: Ops)
    requires Reloadable(o, n) && Describes(d, o, n) && RunsConfig(c, o)
    ensures Run(c, Calls(d)).Some? <==> forall op :: op in d.addedUsers ==> Accepted(op)
    ensures var r := Run(c, Calls(d)); r.Some? ==> Finished(n, d, r.value)
  {
    var retired, stage := Staged(c, o, n, d);
    if Run(c, Calls(d)).Some? {
      CallsRegrouped(d);
      AcceptedIfRun(c, d, stage);
    }
    if forall op :: op in d.addedUsers ==> Accepted(op) { AcceptedRuns(c, o, n, d, retired, stage); }
  }

  /** Every user addition finds its tag there and its email free; the calls go through exactly when every client has
      what its account requires. Then all of the new config is served, its users up to what accounts carry. */
  lemma PatchRuns(o: Config, n: Config, d: Ops)
    requires Reloadable(o, n) && Describes(d, o, n)
    ensures Run(Boot(o), Calls(d)).Some? <==> forall op :: op in d.addedUsers ==> Accepted(op)
    ensures var r := Run(Boot(o), Calls(d)); r.Some? ==> Finished(n, d, r.value)
  {
    RunsFrom(Boot(o), o, n, d);
  }

  lemma AcceptedIfRun(c: Core, d: Ops, stage: Core)
    requires Run(c, FirstCalls(d) + AddUserCalls(d.addedUsers) + RoutingCalls(d.routing)).Some?
    requires Run(c, FirstCalls(d)) == Some(stage)
    ensures forall op :: op in d.addedUsers ==> Accepted(op)
  {
    RunPrefix(c, FirstCalls(d) + AddUserCalls(d.addedUsers), RoutingCalls(d.routing));
    RunPrefix(c, FirstCalls(d), AddUserCalls(d.addedUsers));
    forall op | op in d.addedUsers ensures Accepted(op) {
      AddedAreAccepted(stage, d.addedUsers, op);
    }
  }

  /** What can be checked of a diff before any call: every client it adds is carried whole by its account. */
  predicate AllCarried(d: Ops) {
    forall op :: op in d.addedUsers ==>
      op.user.Some? && op.user.value.Obj? && Carried(op.protocol, op.user.value.fields)
  }

  /** Of an added client, being carried whole is decided by its protocol and fields alone. */
  lemma WholeIffCarried(o: Config, n: Config, d: Ops, op: UserOp)
    requires Reloadable(o, n) && Describes(d, o, n) && op in d.addedUsers
    ensures op.user.Some? && op.user.value.Obj?
    ensures Whole(op) <==> Carried(op.protocol, op.user.value.fields)
    ensures Whole(op) ==> Accepted(op)
  {
    assert d.addedUsers[0..] == d.addedUsers;
    AddedUsersAre(o.inbounds, n.inbounds, ApiTag(n.api), d.addedUsers, op);
    CarriedExactly(op.protocol, op.user.value.fields);
  }

  lemma AllWhole(o: Config, n: Config, d: Ops)
    requires Reloadable(o, n) && Describes(d, o, n)
    ensures AllCarried(d) <==> forall op :: op in d.addedUsers ==> Whole(op)
    ensures AllCarried(d) ==> forall op :: op in d.addedUsers ==> Accepted(op)
  {
    forall op | op in d.addedUsers
      ensures op.user.Some? && op.user.value.Obj? && (Whole(op) <==> Carried(op.protocol, op.user.value.fields))
      ensures Whole(op) ==> Accepted(op)
    {
      WholeIffCarried(o, n, d, op);
    }
  }

  /** The patch theorem. When the change is reloadable, the calls of the diff go through in the order the panel issues
      them (every removal finds its handler or user, every addition a free tag or email) and leave a core that serves
      exactly what the new config asks for, if and only if the account of every added client carries it whole. */
  lemma PatchCorrect(o: Config, n: Config, d: Ops)
    requires Reloadable(o, n) && Describes(d, o, n)
    ensures var r := Run(Boot(o), Calls(d)); r.Some? && SameService(r.value, Boot(n)) <==> AllCarried(d)
  {
    PatchRuns(o, n, d);
    AllWhole(o, n, d);
    var r := Run(Boot(o), Calls(d));
    if r.Some? { SameUsersSameService(r.value, Boot(n)); }
  }

  lemma SameUsersSameService(a: Core, b: Core)
    requires SameService(a.(users := b.users), b)
    ensures SameService(a, b) <==> a.users == b.users
  {
  }

  // ---------- what must survive ----------

  lemma DefaultStays(o: seq<Json>, n: seq<Json>, d: Ops)
    requires OutboundsOk(o) && OutboundsReloadable(Some(o), Some(n)) && OutboundOps(NO_OPS, d, o, n) && o != []
    ensures TagOf(o[0]) !in d.removedOutbounds
  {
    assert d.removedOutbounds[0..] == d.removedOutbounds;
    GoneIs(o, n, o[0]);
  }

  /** No handler that must survive is touched: not the API inbound, not the default outbound, no
      inbound is removed and re-added whose REALITY or reverse-client part a re-add would break. */
  lemma SurvivorsUntouched(o: Config, n: Config, d: Ops)
    requires Reloadable(o, n) && Describes(d, o, n)
    ensures forall t :: t in d.removedInbounds ==>
      && t in ByTag(o.inbounds) && ByTag(o.inbounds)[t].tag == t
      && Safe(ByTag(o.inbounds)[t], ByTag(n.inbounds), ApiTag(n.api))
    ensures Outbounds(o.outbounds).value != [] ==> TagOf(Outbounds(o.outbounds).value[0]) !in d.removedOutbounds
  {
    assert d.removedInbounds[0..] == d.removedInbounds;
    var apiTag, newByTag := ApiTag(n.api), ByTag(n.inbounds);
    forall t | t in d.removedInbounds
      ensures t in ByTag(o.inbounds) && ByTag(o.inbounds)[t].tag == t
      ensures Safe(ByTag(o.inbounds)[t], newByTag, apiTag)
    {
      RemovedIs(o.inbounds, newByTag, apiTag, t);
      ByTagNames(o.inbounds, t);
      GoneHandler(ByTag(o.inbounds)[t], newByTag, apiTag);
    }
    OutboundsAreOk(o.outbounds);
    if Outbounds(o.outbounds).value != [] {
      DefaultStays(Outbounds(o.outbounds).value, Outbounds(n.outbounds).value, d);
    }
  }

  lemma GoneHandler(ib: InboundConfig, newByTag: map<string, InboundConfig>, apiTag: string)
    requires Judge(ib, newByTag, apiTag) in {Replace, Drop}
    ensures Safe(ib, newByTag, apiTag)
  {
  }

  /** Removing this inbound, and adding it again when the new config has it, breaks nothing. */
  predicate Safe(ib: InboundConfig, newByTag: map<string, InboundConfig>, apiTag: string) {
    && ib.tag != apiTag && ib.tag != "api"
    && (ib.tag in newByTag ==>
        && !UsesReality(ib) && !UsesReality(newByTag[ib.tag])
        && !HasReverseClient(ib) && !HasReverseClient(newByTag[ib.tag]))
  }

  lemma JudgedKept(ib: InboundConfig, newByTag: map<string, InboundConfig>, apiTag: string)
    requires ib.tag in newByTag && OnlyUsersDiffer(ib, newByTag[ib.tag])
    ensures Judge(ib, newByTag, apiTag) in {Keep, UserOps, Refuse}
  {
  }

  /** An inbound that differs only in addressable clients keeps its handler: its tag is neither
      removed nor added, and its users are changed one by one. */
  lemma ClientChangeKeepsHandler(o: Config, n: Config, d: Ops, t: string)
    requires Reloadable(o, n) && Describes(d, o, n)
    requires t in ByTag(o.inbounds) && t in ByTag(n.inbounds)
    requires OnlyUsersDiffer(ByTag(o.inbounds)[t], ByTag(n.inbounds)[t])
    ensures t !in d.removedInbounds && forall ib :: ib in d.addedInbounds ==> ib.tag != t
  {
    assert d.removedInbounds[0..] == d.removedInbounds && d.addedInbounds[0..] == d.addedInbounds;
    var apiTag, newByTag := ApiTag(n.api), ByTag(n.inbounds);
    ByTagNames(o.inbounds, t);
    JudgedKept(ByTag(o.inbounds)[t], newByTag, apiTag);
    RemovedIs(o.inbounds, newByTag, apiTag, t);
    forall ib | ib in d.addedInbounds ensures ib.tag != t {
      AddedInboundIs(o.inbounds, n.inbounds, apiTag, d.addedInbounds, ib);
    }
  }

  // ---------- changes that are no changes ----------

  /** Reformatting: every section and every inbound means what it meant, and the outbounds are the same up to the order
      of those after the first. */
  ghost predicate OnlyReformatted(o: Config, n: Config) {
    && StaticsEqual(o, n)
    && TagsOk(o.inbounds)
    && |o.inbounds| == |n.inbounds|
    && (forall i :: 0 <= i < |o.inbounds| ==> InboundEqualNormalized(o.inbounds[i], n.inbounds[i]))
    && OutboundsReloadable(Outbounds(o.outbounds), Outbounds(n.outbounds))
    && (forall v :: v in Outbounds(o.outbounds).value <==> v in Outbounds(n.outbounds).value)
    && Meaning(o.routing) == Meaning(n.routing)
  }

  /** A routing section the panel can replace at run time: there, and an object or null. */
  predicate RoutingSection(raw: Raw) {
    raw != "" && Decode(raw).Some? && (Decode(raw).value.Null? || Decode(raw).value.Obj?)
  }

  lemma SameMeaningRouting(o: Raw, n: Raw)
    requires Meaning(o) == Meaning(n)
    ensures RoutingReloadable(o, n) <==> o == n || (RoutingSection(o) && n != "")
  {
    if RoutingSection(o) && n != "" { assert Decode(o) == Decode(n); }
  }

  lemma ReformattedReloads(o: Config, n: Config)
    requires OnlyReformatted(o, n)
    ensures Reloadable(o, n) <==> o.routing == n.routing || (RoutingSection(o.routing) && RoutingSection(n.routing))
  {
    QuietlyKept(o.inbounds, n.inbounds, ApiTag(n.api));
    SameMeaningRouting(o.routing, n.routing);
    SameMeaningRouting(n.routing, o.routing);
    RoutingBothWays(o.routing, n.routing);
  }

  lemma RoutingBothWays(o: Raw, n: Raw)
    requires Meaning(o) == Meaning(n)
    ensures RoutingSection(o) && n != "" ==> RoutingSection(n)
  {
  }

  lemma QuietLists(o: seq<InboundConfig>, n: seq<InboundConfig>, apiTag: string, oo: seq<Json>, no: seq<Json>, d: Ops)
    requires TagsOk(o) && |o| == |n| && forall i :: 0 <= i < |o| ==> InboundEqualNormalized(o[i], n[i])
    requires OutboundsOk(oo) && OutboundsOk(no) && forall v :: v in oo <==> v in no
    requires InboundOps(NO_OPS, d, o, n, apiTag) && OutboundOps(NO_OPS, d, oo, no)
    ensures d == NO_OPS.(routing := d.routing)
  {
    QuietlyKept(o, n, apiTag);
    QuietInbounds(o, n, apiTag, d);
    QuietOutbounds(oo, no, d);
  }

  lemma OutboundsAreOk(raw: Raw)
    requires Outbounds(raw).Some?
    ensures OutboundsOk(Outbounds(raw).value)
  {
  }

  lemma QuietDiff(o: Config, n: Config, d: Ops)
    requires OnlyReformatted(o, n) && Reloadable(o, n) && Describes(d, o, n)
    ensures d == NO_OPS.(routing := if o.routing == n.routing then None else Some(n.routing))
  {
    OutboundsAreOk(o.outbounds);
    OutboundsAreOk(n.outbounds);
    QuietLists(o.inbounds, n.inbounds, ApiTag(n.api), Outbounds(o.outbounds).value, Outbounds(n.outbounds).value, d);
  }

  /** A config that was only reformatted is reloadable exactly when its routing section is byte for byte the same or
      can be replaced at run time; its diff then holds nothing but that replacement. */
  lemma ReformattingIsQuiet(o: Config, n: Config, d: Ops)
    requires OnlyReformatted(o, n)
    ensures Reloadable(o, n) <==> o.routing == n.routing || (RoutingSection(o.routing) && RoutingSection(n.routing))
    ensures Reloadable(o, n) && Describes(d, o, n) ==>
      d == NO_OPS.(routing := if o.routing == n.routing then None else Some(n.routing))
  {
    ReformattedReloads(o, n);
    if Reloadable(o, n) && Describes(d, o, n) { QuietDiff(o, n, d); }
  }

  lemma QuietlyKept(o: seq<InboundConfig>, n: seq<InboundConfig>, apiTag: string)
    requires TagsOk(o) && |o| == |n| && forall i :: 0 <= i < |o| ==> InboundEqualNormalized(o[i], n[i])
    ensures InboundsReloadable(o, n, apiTag)
    ensures forall i :: 0 <= i < |o| ==> Judge(o[i], ByTag(n), apiTag) == Keep && n[i].tag in ByTag(o)
  {
    assert TagsOk(n) by {
      assert forall i :: 0 <= i < |n| ==> n[i].tag == o[i].tag;
    }
    forall i | 0 <= i < |o| ensures Judge(o[i], ByTag(n), apiTag) == Keep && n[i].tag in ByTag(o) {
      ByTagAt(n, i);
      ByTagAt(o, i);
      EqualIsKept(o[i], ByTag(n), apiTag);
    }
  }

  lemma OnlyRoutingReformatted(o: Config, n: Config)
    requires TagsOk(o.inbounds) && Outbounds(o.outbounds).Some? && n == o.(routing := n.routing)
    requires Meaning(o.routing) == Meaning(n.routing)
    ensures OnlyReformatted(o, n)
  {
  }

  /** In any config, a routing section with one more space means the same and is still replaced. */
  lemma SpacedRoutingIsReplaced(o: Config, n: Config, d: Ops)
    requires TagsOk(o.inbounds) && Outbounds(o.outbounds).Some?
    requires o.routing == "{}" && n == o.(routing := "{ }")
    ensures OnlyReformatted(o, n) && Reloadable(o, n)
    ensures Describes(d, o, n) ==> d == NO_OPS.(routing := Some("{ }"))
  {
    EmptyObjects();
    OnlyRoutingReformatted(o, n);
    ReformattingIsQuiet(o, n, d);
  }

  /** In any config, an absent routing section and null mean the same, and going from one to the other needs a
      restart. */
  lemma NullRoutingRestarts(o: Config, n: Config)
    requires TagsOk(o.inbounds) && Outbounds(o.outbounds).Some?
    requires o.routing == "" && n == o.(routing := "null")
    ensures OnlyReformatted(o, n) && !Reloadable(o, n)
  {
    NullReads();
    OnlyRoutingReformatted(o, n);
    ReformattingIsQuiet(o, n, NO_OPS);
  }

  lemma NullReads()
    ensures Decode("null") == Some(Null)
  {
  }

  lemma EmptyObjects()
    ensures Decode("{}") == Decode("{ }") == Some(Obj(map[]))
  {
    assert "{}"[1..] == "}" && "{ }"[1..] == " }" && " }"[1..] == "}";
  }

  lemma {:induction false} EnumeratedSize<T(!new)>(list: seq<T>, s: set<T>)
    requires Enumerates(list, s)
    ensures |list| == |s|
  {
    if list == [] {
      assert s == {};
    } else {
      var n := |list| - 1;
      assert list == list[..n] + [list[n]];
      EnumeratedSize(list[..n], s - {list[n]});
    }
  }

  lemma NothingAppended<T(!new)>(list: seq<T>, s: set<T>)
    requires Appended([], list, s) && s == {}
    ensures list == []
  {
    assert list[0..] == list;
    EnumeratedSize(list, s);
  }

  lemma EqualIsKept(ib: InboundConfig, newByTag: map<string, InboundConfig>, apiTag: string)
    requires ib.tag in newByTag && InboundEqualNormalized(ib, newByTag[ib.tag])
    ensures Judge(ib, newByTag, apiTag) == Keep
  {
  }

  lemma QuietInbounds(o: seq<InboundConfig>, n: seq<InboundConfig>, apiTag: string, d: Ops)
    requires TagsOk(o) && |o| == |n|
    requires forall i :: 0 <= i < |o| ==> Judge(o[i], ByTag(n), apiTag) == Keep && n[i].tag in ByTag(o)
    requires InboundOps(NO_OPS, d, o, n, apiTag)
    ensures d.removedInbounds == [] && d.addedInbounds == [] && d.removedUsers == [] && d.addedUsers == []
  {
    assert Removed(o, ByTag(n), apiTag) == {};
    assert Readded(o, ByTag(n), apiTag) + Novel(n, ByTag(o)) == {};
    forall op, adding ensures op !in UserOpsFor(o, ByTag(n), apiTag, adding) {
      if op in UserOpsFor(o, ByTag(n), apiTag, adding) {
        var i := UserOpOrigin(o, ByTag(n), apiTag, adding, op);
      }
    }
    NothingAppended(d.removedInbounds, Removed(o, ByTag(n), apiTag));
    NothingAppended(d.addedInbounds, Readded(o, ByTag(n), apiTag) + Novel(n, ByTag(o)));
    NothingAppended(d.removedUsers, UserOpsFor(o, ByTag(n), apiTag, false));
    NothingAppended(d.addedUsers, UserOpsFor(o, ByTag(n), apiTag, true));
  }

  lemma QuietOutbounds(o: seq<Json>, n: seq<Json>, d: Ops)
    requires OutboundsOk(o) && OutboundsOk(n) && OutboundOps(NO_OPS, d, o, n)
    requires forall v :: v in o <==> v in n
    ensures d.removedOutbounds == [] && d.addedOutbounds == []
  {
    assert Gone(o, n) == {};
    forall v ensures v !in Swapped(o, n) + Unseen(o, n) {
      AddedOutboundIs(o, n, v);
    }
    NothingAppended(d.removedOutbounds, Gone(o, n));
    NothingAppended(d.addedOutbounds, Swapped(o, n) + Unseen(o, n));
  }

  /** And an empty diff is only ever produced when the running core already serves the new config. */
  lemma EmptyDiffMeansSameService(o: Config, n: Config)
    requires Reloadable(o, n) && Describes(NO_OPS, o, n)
    ensures SameService(Boot(o), Boot(n))
  {
    PatchCorrect(o, n, NO_OPS);
    NoCalls(Boot(o));
  }

  lemma NoCalls(c: Core)
    ensures Run(c, Calls(NO_OPS)) == Some(c) && AllCarried(NO_OPS)
  {
    assert Calls(NO_OPS) == [];
  }
}
