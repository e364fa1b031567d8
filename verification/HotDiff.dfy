/** Computing the runtime API operations that take a running core from one config to the next. */
module HotDiff {
  import opened Json
  import opened Options
  import opened XrayConfig

  /** One AlterInbound operation; `user` is None for a removal. */
  datatype UserOp = UserOp(tag: string, protocol: string, email: string, user: Option<Json>)

  /** The value of a HotDiff. An added handler is carried as what it decodes to. */
  datatype Ops = Ops(
    removedInbounds: seq<string>, addedInbounds: seq<InboundConfig>,
    removedUsers: seq<UserOp>, addedUsers: seq<UserOp>,
    removedOutbounds: seq<string>, addedOutbounds: seq<Json>,
    routing: Option<Raw>)

  const NO_OPS := Ops([], [], [], [], [], [], None)

  class HotDiff {
    var removedInboundTags: seq<string>
    var addedInbounds: seq<InboundConfig>
    var removedUsers: seq<UserOp>
    var addedUsers: seq<UserOp>
    var removedOutboundTags: seq<string>
    var addedOutbounds: seq<Json>
    var routingConfig: Option<Raw>

    constructor ()
      ensures Value() == NO_OPS
    {
      removedInboundTags, addedInbounds, removedUsers, addedUsers := [], [], [], [];
      removedOutboundTags, addedOutbounds, routingConfig := [], [], None;
    }

    function Value(): Ops
      reads this
    {
      Ops(removedInboundTags, addedInbounds, removedUsers, addedUsers,
          removedOutboundTags, addedOutbounds, routingConfig)
    }

    predicate Empty()
      reads this
      ensures Empty() <==> Value() == NO_OPS
    {
      && |removedInboundTags| == 0
      && |addedInbounds| == 0
      && |removedUsers| == 0
      && |addedUsers| == 0
      && |removedOutboundTags| == 0
      && |addedOutbounds| == 0
      && routingConfig == None
    }
  }

  // ---------- lists that enumerate a set ----------

  /** The list holds exactly the elements of the set, each once. */
  ghost predicate Enumerates<T(!new)>(list: seq<T>, s: set<T>) {
    && (forall x :: x in list <==> x in s)
    && (forall i, j :: 0 <= i < j < |list| ==> list[i] != list[j])
  }

  /** `after` is `before` followed by an enumeration of `s`. */
  ghost predicate Appended<T(!new)>(before: seq<T>, after: seq<T>, s: set<T>) {
    && |before| <= |after|
    && after[..|before|] == before
    && Enumerates(after[|before|..], s)
  }

  lemma AppendOne<T(!new)>(before: seq<T>, after: seq<T>, s: set<T>, x: T)
    requires Appended(before, after, s) && x !in s
    ensures Appended(before, after + [x], s + {x})
  {
    assert (after + [x])[|before|..] == after[|before|..] + [x];
    assert (after + [x])[..|before|] == before;
  }

  lemma EnumeratesBoth<T(!new)>(a: seq<T>, b: seq<T>, s: set<T>, t: set<T>)
    requires Enumerates(a, s) && Enumerates(b, t) && s !! t
    ensures Enumerates(a + b, s + t)
  {
    forall i, j | 0 <= i < j < |a + b| ensures (a + b)[i] != (a + b)[j] {
      if i < |a| <= j {
        assert a[i] in s && b[j - |a|] in t;
      }
    }
  }

  lemma AppendMany<T(!new)>(before: seq<T>, middle: seq<T>, after: seq<T>, s: set<T>, t: set<T>)
    requires Appended(before, middle, s) && Appended(middle, after, t) && s !! t
    ensures Appended(before, after, s + t)
  {
    var a, b := middle[|before|..], after[|middle|..];
    assert after[..|before|] == after[..|middle|][..|before|];
    assert after == middle + b;
    assert after[|before|..] == a + b;
    EnumeratesBoth(a, b, s, t);
  }

  // ---------- inbounds ----------

  predicate TagsOk(ibs: seq<InboundConfig>) {
    && (forall i :: 0 <= i < |ibs| ==> ibs[i].tag != "")
    && (forall i, j :: 0 <= i < j < |ibs| ==> ibs[i].tag != ibs[j].tag)
  }

  function ByTag(ibs: seq<InboundConfig>): map<string, InboundConfig> {
    if ibs == [] then map[] else
      var last := ibs[|ibs| - 1];
      ByTag(ibs[..|ibs| - 1])[last.tag := last]
  }

  lemma {:induction false} ByTagKeys(ibs: seq<InboundConfig>, t: string)
    ensures t in ByTag(ibs) ==> exists i :: 0 <= i < |ibs| && ibs[i].tag == t && ByTag(ibs)[t] == ibs[i]
  {
    if ibs != [] {
      var n := |ibs| - 1;
      if ibs[n].tag != t {
        ByTagKeys(ibs[..n], t);
      }
    }
  }

  lemma {:induction false} ByTagAt(ibs: seq<InboundConfig>, i: nat)
    requires TagsOk(ibs) && i < |ibs|
    ensures ibs[i].tag in ByTag(ibs) && ByTag(ibs)[ibs[i].tag] == ibs[i]
  {
    var n := |ibs| - 1;
    if i < n {
      ByTagAt(ibs[..n], i);
    }
  }

  method InboundsByTag(ibs: seq<InboundConfig>) returns (byTag: map<string, InboundConfig>, ok: bool)
    ensures ok <==> TagsOk(ibs)
    ensures ok ==> byTag == ByTag(ibs)
  {
    byTag := map[];
    for i := 0 to |ibs|
      invariant TagsOk(ibs[..i]) && byTag == ByTag(ibs[..i])
    {
      var tag := ibs[i].tag;
      assert ibs[..i + 1][..i] == ibs[..i];
      if tag == "" {
        return byTag, false;
      }
      if tag in byTag {
        ByTagKeys(ibs[..i], tag);
        return byTag, false;
      }
      forall k | 0 <= k < i ensures ibs[k].tag != tag {
        ByTagAt(ibs[..i], k);
      }
      byTag := byTag[tag := ibs[i]];
    }
    assert ibs[..|ibs|] == ibs;
    return byTag, true;
  }

  predicate InboundEqualNormalized(a: InboundConfig, b: InboundConfig) {
    && a.port == b.port
    && a.protocol == b.protocol
    && a.tag == b.tag
    && RawEqualNormalized(a.listen, b.listen)
    && RawEqualNormalized(a.settings, b.settings)
    && RawEqualNormalized(a.streamSettings, b.streamSettings)
    && RawEqualNormalized(a.sniffing, b.sniffing)
  }

  predicate UserDiffable(protocol: string) {
    protocol == "vless" || protocol == "vmess" || protocol == "trojan"
  }

  /** Same handler up to settings.clients, whose entries are addressable by unique emails. */
  predicate OnlyUsersDiffer(o: InboundConfig, n: InboundConfig) {
    && o.port == n.port && o.protocol == n.protocol && o.tag == n.tag
    && UserDiffable(o.protocol)
    && RawEqualNormalized(o.listen, n.listen)
    && RawEqualNormalized(o.streamSettings, n.streamSettings)
    && RawEqualNormalized(o.sniffing, n.sniffing)
    && SplitSettings(o.settings).Some?
    && SplitSettings(n.settings).Some?
    && SplitSettings(o.settings).value.rest == SplitSettings(n.settings).value.rest
  }

  function Users(ib: InboundConfig): map<string, Json> {
    match SplitSettings(ib.settings)
    case None => map[]
    case Some(s) => s.users
  }

  /** Of the given emails, the users of `o` that `n` no longer has in the same form. */
  function UserRemovals(o: InboundConfig, n: InboundConfig, emails: set<string>): set<UserOp> {
    set e | e in emails && e in Users(o) && (e !in Users(n) || Users(n)[e] != Users(o)[e]) ::
      UserOp(o.tag, o.protocol, e, None)
  }

  /** Of the given emails, the users of `n` that `o` does not have in the same form. */
  function UserAdditions(o: InboundConfig, n: InboundConfig, emails: set<string>): set<UserOp> {
    set e | e in emails && e in Users(n) && (e !in Users(o) || Users(n)[e] != Users(o)[e]) ::
      UserOp(o.tag, o.protocol, e, Some(Users(n)[e]))
  }

  function AllEmails(o: InboundConfig, n: InboundConfig): set<string> {
    Users(o).Keys + Users(n).Keys
  }

  /** diffInboundUsers: the maps are walked in no particular order. */
  method DiffInboundUsers(o: InboundConfig, n: InboundConfig, diff: HotDiff) returns (ok: bool)
    modifies diff`removedUsers, diff`addedUsers
    ensures ok <==> OnlyUsersDiffer(o, n)
    ensures !ok ==> diff.Value() == old(diff.Value())
    ensures ok ==> Appended(old(diff.removedUsers), diff.removedUsers, UserRemovals(o, n, AllEmails(o, n)))
    ensures ok ==> Appended(old(diff.addedUsers), diff.addedUsers, UserAdditions(o, n, AllEmails(o, n)))
  {
    if o.port != n.port || o.protocol != n.protocol || o.tag != n.tag {
      return false;
    }
    if !UserDiffable(o.protocol) {
      return false;
    }
    if !RawEqualNormalized(o.listen, n.listen)
    || !RawEqualNormalized(o.streamSettings, n.streamSettings)
    || !RawEqualNormalized(o.sniffing, n.sniffing) {
      return false;
    }
    var oldClients, oldRest, okOld := SplitSettingsClients(o.settings);
    if !okOld {
      return false;
    }
    var newClients, newRest, okNew := SplitSettingsClients(n.settings);
    if !okNew {
      return false;
    }
    SplitIsValid(o.settings);
    SplitIsValid(n.settings);
    PrintInjective(SplitSettings(o.settings).value.rest, SplitSettings(n.settings).value.rest);
    if oldRest != newRest {
      return false;
    }

    RetireUsers(o, n, oldClients, newClients, diff);
    ghost var middle := diff.addedUsers;
    AdmitUsers(o, n, oldClients, newClients, diff);
    assert UserRemovals(o, n, oldClients.Keys) == UserRemovals(o, n, AllEmails(o, n));
    ghost var known, novel := oldClients.Keys, newClients.Keys - oldClients.Keys;
    AppendMany(old(diff.addedUsers), middle, diff.addedUsers,
               UserAdditions(o, n, known), UserAdditions(o, n, novel));
    assert UserAdditions(o, n, known) + UserAdditions(o, n, novel) == UserAdditions(o, n, AllEmails(o, n));
    ok := true;
  }

  /** The walk over the old clients: gone or changed ones are removed, changed ones added again. */
  method RetireUsers(o: InboundConfig, n: InboundConfig, oldClients: map<string, Json>,
                     newClients: map<string, Json>, diff: HotDiff)
    requires SplitSettings(o.settings).Some? && SplitSettings(n.settings).Some?
    requires oldClients == Users(o) && newClients == Users(n)
    modifies diff`removedUsers, diff`addedUsers
    ensures Appended(old(diff.removedUsers), diff.removedUsers, UserRemovals(o, n, oldClients.Keys))
    ensures Appended(old(diff.addedUsers), diff.addedUsers, UserAdditions(o, n, oldClients.Keys))
  {
    ghost var removed0, added0 := diff.removedUsers, diff.addedUsers;
    SplitIsValid(o.settings);
    SplitIsValid(n.settings);
    var todo := oldClients.Keys;
    while todo != {}
      invariant todo <= oldClients.Keys
      invariant Appended(removed0, diff.removedUsers, UserRemovals(o, n, oldClients.Keys - todo))
      invariant Appended(added0, diff.addedUsers, UserAdditions(o, n, oldClients.Keys - todo))
      decreases todo
    {
      var email :| email in todo;
      ghost var seen := oldClients.Keys - todo;
      todo := todo - {email};
      assert oldClients.Keys - todo == seen + {email};
      RemovalsStep(o, n, seen, email);
      AdditionsStep(o, n, seen, email);
      if email in newClients {
        PrintInjective(oldClients[email], newClients[email]);
      }
      if email in newClients && Print(oldClients[email]) == Print(newClients[email]) {
        continue;
      }
      var removal := UserOp(o.tag, o.protocol, email, None);
      AppendOne(removed0, diff.removedUsers, UserRemovals(o, n, seen), removal);
      diff.removedUsers := diff.removedUsers + [removal];
      if email in newClients {
        var addition := UserOp(o.tag, o.protocol, email, Some(newClients[email]));
        AppendOne(added0, diff.addedUsers, UserAdditions(o, n, seen), addition);
        diff.addedUsers := diff.addedUsers + [addition];
      }
    }
    assert oldClients.Keys - todo == oldClients.Keys;
  }

  /** The walk over the new clients: those the old inbound did not have are added. */
  method AdmitUsers(o: InboundConfig, n: InboundConfig, oldClients: map<string, Json>,
                    newClients: map<string, Json>, diff: HotDiff)
    requires oldClients == Users(o) && newClients == Users(n)
    modifies diff`addedUsers
    ensures Appended(old(diff.addedUsers), diff.addedUsers, UserAdditions(o, n, newClients.Keys - oldClients.Keys))
  {
    ghost var added0 := diff.addedUsers;
    var todo := newClients.Keys;
    while todo != {}
      invariant todo <= newClients.Keys
      invariant Appended(added0, diff.addedUsers, UserAdditions(o, n, newClients.Keys - todo - oldClients.Keys))
      decreases todo
    {
      var email :| email in todo;
      ghost var seen := newClients.Keys - todo - oldClients.Keys;
      todo := todo - {email};
      AdditionsStep(o, n, seen, email);
      if email !in oldClients {
        assert newClients.Keys - todo - oldClients.Keys == seen + {email};
        var addition := UserOp(o.tag, o.protocol, email, Some(newClients[email]));
        AppendOne(added0, diff.addedUsers, UserAdditions(o, n, seen), addition);
        diff.addedUsers := diff.addedUsers + [addition];
      } else {
        assert newClients.Keys - todo - oldClients.Keys == seen;
      }
    }
    assert newClients.Keys - todo - oldClients.Keys == newClients.Keys - oldClients.Keys;
  }

  lemma RemovalsStep(o: InboundConfig, n: InboundConfig, seen: set<string>, email: string)
    requires email !in seen && email in Users(o)
    ensures UserOp(o.tag, o.protocol, email, None) !in UserRemovals(o, n, seen)
    ensures UserRemovals(o, n, seen + {email}) == UserRemovals(o, n, seen)
      + if email in Users(n) && Users(n)[email] == Users(o)[email] then {}
        else {UserOp(o.tag, o.protocol, email, None)}
  {
  }

  lemma AdditionsStep(o: InboundConfig, n: InboundConfig, seen: set<string>, email: string)
    ensures email in Users(n) && email !in seen ==>
      UserOp(o.tag, o.protocol, email, Some(Users(n)[email])) !in UserAdditions(o, n, seen)
    ensures UserAdditions(o, n, seen + {email}) == UserAdditions(o, n, seen)
      + if email in Users(n) && (email !in Users(o) || Users(n)[email] != Users(o)[email])
        then {UserOp(o.tag, o.protocol, email, Some(Users(n)[email]))} else {}
  {
  }

  datatype Verdict = Keep | Refuse | UserOps | Replace | Drop

  /** What becomes of one old inbound; Refuse forces a full restart. */
  function Judge(ib: InboundConfig, newByTag: map<string, InboundConfig>, apiTag: string): Verdict {
    var exists_ := ib.tag in newByTag;
    if exists_ && InboundEqualNormalized(ib, newByTag[ib.tag]) then Keep
    else if ib.tag == apiTag || ib.tag == "api" then Refuse
    else if exists_ && (HasReverseClient(ib) || HasReverseClient(newByTag[ib.tag])) then Refuse
    else if exists_ && OnlyUsersDiffer(ib, newByTag[ib.tag]) then UserOps
    else if exists_ && (UsesReality(ib) || UsesReality(newByTag[ib.tag])) then Refuse
    else if !exists_ then Drop
    else if Marshals(newByTag[ib.tag]) then Replace else Refuse
  }

  /** An inbound under a tag the old config did not have. */
  predicate Admissible(ib: InboundConfig, oldByTag: map<string, InboundConfig>, apiTag: string) {
    ib.tag in oldByTag || (ib.tag != apiTag && ib.tag != "api" && Marshals(ib))
  }

  predicate InboundsReloadable(o: seq<InboundConfig>, n: seq<InboundConfig>, apiTag: string) {
    && TagsOk(o) && TagsOk(n)
    && (forall i :: 0 <= i < |o| ==> Judge(o[i], ByTag(n), apiTag) != Refuse)
    && (forall i :: 0 <= i < |n| ==> Admissible(n[i], ByTag(o), apiTag))
  }

  function Removed(o: seq<InboundConfig>, newByTag: map<string, InboundConfig>, apiTag: string): set<string> {
    set i: nat | i < |o| && Judge(o[i], newByTag, apiTag) in {Replace, Drop} :: o[i].tag
  }

  function Readded(o: seq<InboundConfig>, newByTag: map<string, InboundConfig>, apiTag: string): set<InboundConfig> {
    set i: nat | i < |o| && Judge(o[i], newByTag, apiTag) == Replace && o[i].tag in newByTag :: newByTag[o[i].tag]
  }

  function Novel(n: seq<InboundConfig>, oldByTag: map<string, InboundConfig>): set<InboundConfig> {
    set i: nat | i < |n| && n[i].tag !in oldByTag :: n[i]
  }

  /** The user operations one inbound calls for, and those a list of inbounds calls for. */
  function UserOpsAt(ib: InboundConfig, newByTag: map<string, InboundConfig>, apiTag: string,
                     adding: bool): set<UserOp> {
    if Judge(ib, newByTag, apiTag) != UserOps then {} else
      var n := newByTag[ib.tag];
      if adding then UserAdditions(ib, n, AllEmails(ib, n)) else UserRemovals(ib, n, AllEmails(ib, n))
  }

  function Union<T>(ss: seq<set<T>>): set<T> {
    if ss == [] then {} else Union(ss[..|ss| - 1]) + ss[|ss| - 1]
  }

  lemma {:induction false} UnionMembers<T>(ss: seq<set<T>>, x: T)
    ensures x in Union(ss) <==> exists i :: 0 <= i < |ss| && x in ss[i]
  {
    if ss != [] {
      var n := |ss| - 1;
      UnionMembers(ss[..n], x);
      assert forall i :: 0 <= i < n ==> ss[..n][i] == ss[i];
    }
  }

  function UserOpsFor(o: seq<InboundConfig>, newByTag: map<string, InboundConfig>, apiTag: string,
                      adding: bool): set<UserOp> {
    Union(seq(|o|, i requires 0 <= i < |o| => UserOpsAt(o[i], newByTag, apiTag, adding)))
  }

  lemma UserOpOrigin(o: seq<InboundConfig>, newByTag: map<string, InboundConfig>,
                     apiTag: string, adding: bool, op: UserOp) returns (i: nat)
    requires op in UserOpsFor(o, newByTag, apiTag, adding)
    ensures i < |o| && op in UserOpsAt(o[i], newByTag, apiTag, adding)
  {
    var ss := seq(|o|, i requires 0 <= i < |o| => UserOpsAt(o[i], newByTag, apiTag, adding));
    UnionMembers(ss, op);
    i :| 0 <= i < |ss| && op in ss[i];
  }

  lemma UserOpListed(o: seq<InboundConfig>, newByTag: map<string, InboundConfig>,
                     apiTag: string, adding: bool, op: UserOp, i: nat)
    requires i < |o| && op in UserOpsAt(o[i], newByTag, apiTag, adding)
    ensures op in UserOpsFor(o, newByTag, apiTag, adding)
  {
    var ss := seq(|o|, i requires 0 <= i < |o| => UserOpsAt(o[i], newByTag, apiTag, adding));
    assert op in ss[i];
    UnionMembers(ss, op);
  }

  /** The part of an inbound walk that has been done agrees with the sets for that part. */
  ghost predicate InboundsDone(before: Ops, now: Ops, o: seq<InboundConfig>,
                               newByTag: map<string, InboundConfig>, apiTag: string)
  {
    && Appended(before.removedInbounds, now.removedInbounds, Removed(o, newByTag, apiTag))
    && Appended(before.addedInbounds, now.addedInbounds, Readded(o, newByTag, apiTag))
    && Appended(before.removedUsers, now.removedUsers, UserOpsFor(o, newByTag, apiTag, false))
    && Appended(before.addedUsers, now.addedUsers, UserOpsFor(o, newByTag, apiTag, true))
  }

  lemma WalkStep(o: seq<InboundConfig>, i: nat, newByTag: map<string, InboundConfig>, apiTag: string)
    requires i < |o| && TagsOk(o)
    requires forall t :: t in newByTag ==> newByTag[t].tag == t
    ensures o[i].tag !in Removed(o[..i], newByTag, apiTag)
    ensures o[i].tag in newByTag ==> newByTag[o[i].tag] !in Readded(o[..i], newByTag, apiTag)
    ensures Removed(o[..i + 1], newByTag, apiTag) == Removed(o[..i], newByTag, apiTag)
      + if Judge(o[i], newByTag, apiTag) in {Replace, Drop} then {o[i].tag} else {}
    ensures Readded(o[..i + 1], newByTag, apiTag) == Readded(o[..i], newByTag, apiTag)
      + if Judge(o[i], newByTag, apiTag) == Replace then {newByTag[o[i].tag]} else {}
  {
    var a, b := o[..i], o[..i + 1];
    assert b == a + [o[i]];
    assert forall k :: 0 <= k < i ==> b[k] == a[k] == o[k];
    assert b[i] == o[i];
  }

  lemma UserWalkStep(o: seq<InboundConfig>, i: nat, newByTag: map<string, InboundConfig>, apiTag: string, adding: bool)
    requires i < |o| && TagsOk(o)
    ensures UserOpsFor(o[..i + 1], newByTag, apiTag, adding)
         == UserOpsFor(o[..i], newByTag, apiTag, adding) + UserOpsAt(o[i], newByTag, apiTag, adding)
    ensures UserOpsFor(o[..i], newByTag, apiTag, adding) !! UserOpsAt(o[i], newByTag, apiTag, adding)
  {
    var a, b := o[..i], o[..i + 1];
    var sa := seq(|a|, k requires 0 <= k < |a| => UserOpsAt(a[k], newByTag, apiTag, adding));
    var sb := seq(|b|, k requires 0 <= k < |b| => UserOpsAt(b[k], newByTag, apiTag, adding));
    assert sb[..i] == sa;
    forall op | op in UserOpsFor(o[..i], newByTag, apiTag, adding) ensures op.tag != o[i].tag {
      var k := UserOpOrigin(o[..i], newByTag, apiTag, adding, op);
    }
  }

  lemma ByTagTags(ibs: seq<InboundConfig>)
    ensures forall t :: t in ByTag(ibs) ==> ByTag(ibs)[t].tag == t
  {
    forall t | t in ByTag(ibs) ensures ByTag(ibs)[t].tag == t {
      ByTagKeys(ibs, t);
    }
  }

  lemma NothingDone(before: Ops, newByTag: map<string, InboundConfig>, apiTag: string)
    ensures InboundsDone(before, before, [], newByTag, apiTag)
  {
  }

  lemma NoUserOps(o: seq<InboundConfig>, i: nat, newByTag: map<string, InboundConfig>, apiTag: string, adding: bool)
    requires i < |o| && TagsOk(o) && Judge(o[i], newByTag, apiTag) != UserOps
    ensures UserOpsFor(o[..i + 1], newByTag, apiTag, adding) == UserOpsFor(o[..i], newByTag, apiTag, adding)
  {
    UserWalkStep(o, i, newByTag, apiTag, adding);
  }

  lemma DoneKeep(before: Ops, now: Ops, o: seq<InboundConfig>, i: nat, newByTag: map<string, InboundConfig>,
                 apiTag: string)
    requires i < |o| && TagsOk(o) && Judge(o[i], newByTag, apiTag) == Keep
    requires forall t :: t in newByTag ==> newByTag[t].tag == t
    requires InboundsDone(before, now, o[..i], newByTag, apiTag)
    ensures InboundsDone(before, now, o[..i + 1], newByTag, apiTag)
  {
    WalkStep(o, i, newByTag, apiTag);
    NoUserOps(o, i, newByTag, apiTag, false);
    NoUserOps(o, i, newByTag, apiTag, true);
  }

  lemma DoneUsers(before: Ops, then_: Ops, now: Ops, o: seq<InboundConfig>, i: nat,
                  newByTag: map<string, InboundConfig>, apiTag: string)
    requires i < |o| && TagsOk(o) && Judge(o[i], newByTag, apiTag) == UserOps
    requires forall t :: t in newByTag ==> newByTag[t].tag == t
    requires InboundsDone(before, then_, o[..i], newByTag, apiTag)
    requires now.removedInbounds == then_.removedInbounds && now.addedInbounds == then_.addedInbounds
    requires Appended(then_.removedUsers, now.removedUsers, UserOpsAt(o[i], newByTag, apiTag, false))
    requires Appended(then_.addedUsers, now.addedUsers, UserOpsAt(o[i], newByTag, apiTag, true))
    ensures InboundsDone(before, now, o[..i + 1], newByTag, apiTag)
  {
    WalkStep(o, i, newByTag, apiTag);
    UserWalkStep(o, i, newByTag, apiTag, false);
    UserWalkStep(o, i, newByTag, apiTag, true);
    AppendMany(before.removedUsers, then_.removedUsers, now.removedUsers,
               UserOpsFor(o[..i], newByTag, apiTag, false), UserOpsAt(o[i], newByTag, apiTag, false));
    AppendMany(before.addedUsers, then_.addedUsers, now.addedUsers,
               UserOpsFor(o[..i], newByTag, apiTag, true), UserOpsAt(o[i], newByTag, apiTag, true));
  }

  lemma DoneHandler(before: Ops, then_: Ops, now: Ops, o: seq<InboundConfig>, i: nat,
                    newByTag: map<string, InboundConfig>, apiTag: string)
    requires i < |o| && TagsOk(o) && Judge(o[i], newByTag, apiTag) in {Replace, Drop}
    requires forall t :: t in newByTag ==> newByTag[t].tag == t
    requires InboundsDone(before, then_, o[..i], newByTag, apiTag)
    requires now.removedUsers == then_.removedUsers && now.addedUsers == then_.addedUsers
    requires now.removedInbounds == then_.removedInbounds + [o[i].tag]
    requires now.addedInbounds == then_.addedInbounds
      + if Judge(o[i], newByTag, apiTag) == Replace then [newByTag[o[i].tag]] else []
    ensures InboundsDone(before, now, o[..i + 1], newByTag, apiTag)
  {
    WalkStep(o, i, newByTag, apiTag);
    NoUserOps(o, i, newByTag, apiTag, false);
    NoUserOps(o, i, newByTag, apiTag, true);
    AppendOne(before.removedInbounds, then_.removedInbounds, Removed(o[..i], newByTag, apiTag), o[i].tag);
    if Judge(o[i], newByTag, apiTag) == Replace {
      AppendOne(before.addedInbounds, then_.addedInbounds, Readded(o[..i], newByTag, apiTag), newByTag[o[i].tag]);
    } else {
      assert now.addedInbounds == then_.addedInbounds;
    }
  }

  /** One turn of the loop over the old inbounds. */
  method DiffInbound(o: seq<InboundConfig>, i: nat, newByTag: map<string, InboundConfig>, apiTag: string,
                     ghost before: Ops, diff: HotDiff) returns (ok: bool)
    requires i < |o| && TagsOk(o)
    requires forall t :: t in newByTag ==> newByTag[t].tag == t
    requires InboundsDone(before, diff.Value(), o[..i], newByTag, apiTag)
    modifies diff`removedInboundTags, diff`addedInbounds, diff`removedUsers, diff`addedUsers
    ensures ok <==> Judge(o[i], newByTag, apiTag) != Refuse
    ensures ok ==> InboundsDone(before, diff.Value(), o[..i + 1], newByTag, apiTag)
  {
    var oldIb := o[i];
    var exists_ := oldIb.tag in newByTag;
    ghost var then_ := diff.Value();
    if exists_ && InboundEqualNormalized(oldIb, newByTag[oldIb.tag]) {
      DoneKeep(before, then_, o, i, newByTag, apiTag);
      return true;
    }
    if oldIb.tag == apiTag || oldIb.tag == "api" {
      return false;
    }
    if exists_ && (HasReverseClient(oldIb) || HasReverseClient(newByTag[oldIb.tag])) {
      return false;
    }
    if exists_ {
      var usersOnly := DiffInboundUsers(oldIb, newByTag[oldIb.tag], diff);
      if usersOnly {
        DoneUsers(before, then_, diff.Value(), o, i, newByTag, apiTag);
        return true;
      }
    }
    if exists_ && (UsesReality(oldIb) || UsesReality(newByTag[oldIb.tag])) {
      return false;
    }
    diff.removedInboundTags := diff.removedInboundTags + [oldIb.tag];
    if exists_ {
      if !Marshals(newByTag[oldIb.tag]) {
        return false;
      }
      diff.addedInbounds := diff.addedInbounds + [newByTag[oldIb.tag]];
    }
    DoneHandler(before, then_, diff.Value(), o, i, newByTag, apiTag);
    return true;
  }

  /** The loop over the old inbounds. */
  method RetireInbounds(o: seq<InboundConfig>, newByTag: map<string, InboundConfig>, apiTag: string,
                        diff: HotDiff) returns (ok: bool)
    requires TagsOk(o) && forall t :: t in newByTag ==> newByTag[t].tag == t
    modifies diff`removedInboundTags, diff`addedInbounds, diff`removedUsers, diff`addedUsers
    ensures ok <==> forall i :: 0 <= i < |o| ==> Judge(o[i], newByTag, apiTag) != Refuse
    ensures ok ==> InboundsDone(old(diff.Value()), diff.Value(), o, newByTag, apiTag)
  {
    ghost var before := diff.Value();
    NothingDone(before, newByTag, apiTag);
    assert o[..0] == [];
    for i := 0 to |o|
      invariant InboundsDone(before, diff.Value(), o[..i], newByTag, apiTag)
      invariant forall k :: 0 <= k < i ==> Judge(o[k], newByTag, apiTag) != Refuse
    {
      ok := DiffInbound(o, i, newByTag, apiTag, before, diff);
      if !ok {
        return false;
      }
    }
    assert o[..|o|] == o;
    return true;
  }

  /** The loop over the new inbounds. */
  method AdmitInbounds(n: seq<InboundConfig>, oldByTag: map<string, InboundConfig>, apiTag: string,
                       diff: HotDiff) returns (ok: bool)
    requires TagsOk(n)
    modifies diff`addedInbounds
    ensures ok <==> forall i :: 0 <= i < |n| ==> Admissible(n[i], oldByTag, apiTag)
    ensures ok ==> Appended(old(diff.addedInbounds), diff.addedInbounds, Novel(n, oldByTag))
  {
    ghost var before := diff.addedInbounds;
    for i := 0 to |n|
      invariant Appended(before, diff.addedInbounds, Novel(n[..i], oldByTag))
      invariant forall k :: 0 <= k < i ==> Admissible(n[k], oldByTag, apiTag)
    {
      var newIb := n[i];
      NovelStep(n, i, oldByTag);
      if newIb.tag in oldByTag {
        continue;
      }
      if newIb.tag == apiTag || newIb.tag == "api" {
        return false;
      }
      if !Marshals(newIb) {
        return false;
      }
      AppendOne(before, diff.addedInbounds, Novel(n[..i], oldByTag), newIb);
      diff.addedInbounds := diff.addedInbounds + [newIb];
    }
    assert n[..|n|] == n;
    return true;
  }

  lemma NovelStep(n: seq<InboundConfig>, i: nat, oldByTag: map<string, InboundConfig>)
    requires i < |n| && TagsOk(n)
    ensures n[i] !in Novel(n[..i], oldByTag)
    ensures Novel(n[..i + 1], oldByTag) == Novel(n[..i], oldByTag) + if n[i].tag in oldByTag then {} else {n[i]}
  {
    var a, b := n[..i], n[..i + 1];
    assert forall k :: 0 <= k < i ==> b[k] == a[k] == n[k];
    assert b[i] == n[i];
  }

  /** The four inbound-level lists the diff carries when the change can be applied at run time. */
  ghost predicate InboundOps(before: Ops, now: Ops, o: seq<InboundConfig>, n: seq<InboundConfig>, apiTag: string) {
    && Appended(before.removedInbounds, now.removedInbounds, Removed(o, ByTag(n), apiTag))
    && Appended(before.addedInbounds, now.addedInbounds, Readded(o, ByTag(n), apiTag) + Novel(n, ByTag(o)))
    && Appended(before.removedUsers, now.removedUsers, UserOpsFor(o, ByTag(n), apiTag, false))
    && Appended(before.addedUsers, now.addedUsers, UserOpsFor(o, ByTag(n), apiTag, true))
  }

  lemma ReaddedIsNotNovel(o: seq<InboundConfig>, n: seq<InboundConfig>, apiTag: string)
    requires TagsOk(o)
    ensures Readded(o, ByTag(n), apiTag) !! Novel(n, ByTag(o))
  {
    ByTagTags(n);
    forall ib | ib in Readded(o, ByTag(n), apiTag) ensures ib.tag in ByTag(o) {
      var i: nat :| i < |o| && o[i].tag in ByTag(n) && ib == ByTag(n)[o[i].tag];
      ByTagAt(o, i);
    }
  }

  lemma InboundOpsComplete(before: Ops, walked: Ops, now: Ops, o: seq<InboundConfig>, n: seq<InboundConfig>,
                           apiTag: string)
    requires TagsOk(o)
    requires InboundsDone(before, walked, o, ByTag(n), apiTag)
    requires now == walked.(addedInbounds := now.addedInbounds)
    requires Appended(walked.addedInbounds, now.addedInbounds, Novel(n, ByTag(o)))
    ensures InboundOps(before, now, o, n, apiTag)
  {
    ReaddedIsNotNovel(o, n, apiTag);
    AppendMany(before.addedInbounds, walked.addedInbounds, now.addedInbounds,
               Readded(o, ByTag(n), apiTag), Novel(n, ByTag(o)));
  }

  method DiffInbounds(oldCfg: Config, newCfg: Config, diff: HotDiff) returns (ok: bool)
    modifies diff`removedInboundTags, diff`addedInbounds, diff`removedUsers, diff`addedUsers
    ensures ok <==> InboundsReloadable(oldCfg.inbounds, newCfg.inbounds, ApiTag(newCfg.api))
    ensures ok ==> InboundOps(old(diff.Value()), diff.Value(), oldCfg.inbounds, newCfg.inbounds, ApiTag(newCfg.api))
  {
    var o, n := oldCfg.inbounds, newCfg.inbounds;
    var oldByTag, okOld := InboundsByTag(o);
    if !okOld {
      return false;
    }
    var newByTag, okNew := InboundsByTag(n);
    if !okNew {
      return false;
    }
    var apiTag := ApiTag(newCfg.api);
    ghost var before := diff.Value();
    ByTagTags(n);
    ok := RetireInbounds(o, newByTag, apiTag, diff);
    if !ok {
      return false;
    }
    ghost var walked := diff.Value();
    ok := AdmitInbounds(n, oldByTag, apiTag, diff);
    if ok {
      InboundOpsComplete(before, walked, diff.Value(), o, n, apiTag);
    }
  }

  // ---------- outbounds ----------

  /** An outbound's tag; None when it is not an object with a string tag. */
  function OutboundTag(v: Json): Option<string> {
    StringField(v, "tag")
  }

  function TagOf(v: Json): string {
    if OutboundTag(v).Some? then OutboundTag(v).value else ""
  }

  function Tags(items: seq<Json>): seq<string> {
    seq(|items|, i requires 0 <= i < |items| => TagOf(items[i]))
  }

  predicate Addressable(tags: seq<string>) {
    && (forall i :: 0 <= i < |tags| ==> tags[i] != "")
    && (forall i, j :: 0 <= i < j < |tags| ==> tags[i] != tags[j])
  }

  predicate OutboundsOk(items: seq<Json>) {
    Addressable(Tags(items))
  }

  /** The entries of the outbounds section; None when it is no array or an entry cannot be addressed. */
  function Outbounds(raw: Raw): Option<seq<Json>> {
    if raw == "" then Some([]) else
      match Unmarshal(raw)
      case Some(Null) => Some([])
      case Some(Arr(items)) => if OutboundsOk(items) then Some(items) else None
      case _ => None
  }

  datatype OutboundEntry = OutboundEntry(tag: string, raw: Json, norm: string)

  function EntryOf(v: Json): OutboundEntry {
    OutboundEntry(TagOf(v), v, Print(v))
  }

  ghost predicate EntriesOf(entries: seq<OutboundEntry>, items: seq<Json>) {
    |entries| == |items| && forall i :: 0 <= i < |items| ==> entries[i] == EntryOf(items[i]) && Valid(items[i])
  }

  method ParseOutbounds(raw: Raw) returns (entries: seq<OutboundEntry>, ok: bool)
    ensures ok <==> Outbounds(raw).Some?
    ensures ok ==> EntriesOf(entries, Outbounds(raw).value)
  {
    entries, ok := [], raw == "";
    if raw == "" {
      return;
    }
    var parsed := Unmarshal(raw);
    if parsed == Some(Null) {
      return entries, true;
    }
    if parsed.None? || !parsed.value.Arr? {
      return;
    }
    assert Valid(parsed.value);
    entries, ok := ParseEntries(parsed.value.items);
  }

  function Elements(s: seq<string>): set<string> {
    set x | x in s
  }

  lemma Repeats(tags: seq<string>, i: nat)
    requires i < |tags| && tags[i] in tags[..i]
    ensures !Addressable(tags)
  {
    var earlier := tags[..i];
    var k :| 0 <= k < |earlier| && earlier[k] == tags[i];
    assert tags[k] == tags[i];
  }

  lemma OneMoreTag(tags: seq<string>, i: nat)
    requires i < |tags| && Addressable(tags[..i]) && tags[i] != "" && tags[i] !in tags[..i]
    ensures Addressable(tags[..i + 1])
    ensures Elements(tags[..i + 1]) == Elements(tags[..i]) + {tags[i]}
  {
    var a, b := tags[..i], tags[..i + 1];
    assert b == a + [tags[i]];
    forall j, k | 0 <= j < k < |b| ensures b[j] != b[k] {
      assert b[j] == a[j];
    }
  }

  function EntryList(items: seq<Json>): seq<OutboundEntry> {
    seq(|items|, i requires 0 <= i < |items| => EntryOf(items[i]))
  }

  lemma EntryStep(items: seq<Json>, i: nat)
    requires i < |items|
    ensures Tags(items)[i] == EntryOf(items[i]).tag
    ensures EntryList(items)[..i + 1] == EntryList(items)[..i] + [EntryOf(items[i])]
  {
    var all := EntryList(items);
    assert all[..i + 1] == all[..i] + [all[i]];
  }

  method ParseEntries(items: seq<Json>) returns (entries: seq<OutboundEntry>, ok: bool)
    ensures ok <==> OutboundsOk(items)
    ensures ok ==> entries == EntryList(items)
  {
    entries, ok := [], false;
    ghost var tags, all := Tags(items), EntryList(items);
    var seen: set<string> := {};
    for i := 0 to |items|
      invariant entries == all[..i]
      invariant Addressable(tags[..i]) && seen == Elements(tags[..i])
    {
      var entry := EntryOf(items[i]);
      EntryStep(items, i);
      if entry.tag == "" {
        return;
      }
      if entry.tag in seen {
        Repeats(tags, i);
        return;
      }
      OneMoreTag(tags, i);
      seen := seen + {entry.tag};
      entries := entries + [entry];
    }
    assert tags[..|items|] == tags && all[..|items|] == all;
    ok := true;
  }

  /** The default handler stays first and unchanged; the rest may change freely. */
  predicate OutboundsReloadable(o: Option<seq<Json>>, n: Option<seq<Json>>) {
    && o.Some? && n.Some?
    && (|o.value| == 0 <==> |n.value| == 0)
    && (|o.value| > 0 ==> o.value[0] == n.value[0])
  }

  /** Tags of the old entries that the new list does not hold in the same form. */
  function Gone(o: seq<Json>, n: seq<Json>): set<string> {
    set v | v in o && v !in n :: TagOf(v)
  }

  /** New entries that replace a different old entry under their tag. */
  function Swapped(o: seq<Json>, n: seq<Json>): set<Json> {
    set v | v in n && v !in o && TagOf(v) in Tags(o)
  }

  /** New entries under a tag the old list did not use. */
  function Unseen(o: seq<Json>, n: seq<Json>): set<Json> {
    set v | v in n && TagOf(v) !in Tags(o)
  }

  lemma TagsMember(items: seq<Json>, v: Json)
    requires v in items
    ensures TagOf(v) in Tags(items)
  {
    var i :| 0 <= i < |items| && items[i] == v;
    assert Tags(items)[i] == TagOf(v);
  }

  /** Among addressable entries the tag tells which entry it is. */
  lemma TagDetermines(items: seq<Json>, v: Json, w: Json)
    requires OutboundsOk(items) && v in items && w in items && TagOf(v) == TagOf(w)
    ensures v == w
  {
    var i :| 0 <= i < |items| && items[i] == v;
    var j :| 0 <= j < |items| && items[j] == w;
    assert Tags(items)[i] == Tags(items)[j];
  }

  lemma FreshTag(items: seq<Json>, i: nat, v: Json)
    requires OutboundsOk(items) && i < |items| && v in items[..i]
    ensures TagOf(v) != TagOf(items[i])
  {
    var k :| 0 <= k < |items[..i]| && items[..i][k] == v;
    assert Tags(items)[k] == TagOf(v) && Tags(items)[i] == TagOf(items[i]);
  }

  lemma TagsPrefix(items: seq<Json>, i: nat)
    requires i < |items|
    ensures Tags(items[..i + 1]) == Tags(items[..i]) + [TagOf(items[i])]
  {
    assert items[..i + 1] == items[..i] + [items[i]];
  }

  lemma GoneStep(o: seq<Json>, i: nat, n: seq<Json>)
    requires OutboundsOk(o) && i < |o|
    ensures TagOf(o[i]) !in Gone(o[..i], n)
    ensures Gone(o[..i + 1], n) == Gone(o[..i], n) + if o[i] in n then {} else {TagOf(o[i])}
  {
    assert o[..i + 1] == o[..i] + [o[i]];
    forall v | v in o[..i] ensures TagOf(v) != TagOf(o[i]) {
      FreshTag(o, i, v);
    }
  }

  /** The new entry under the tag of the i-th old one, if there is one, is `m`. */
  lemma SwappedStep(o: seq<Json>, i: nat, n: seq<Json>, m: Option<Json>)
    requires OutboundsOk(o) && OutboundsOk(n) && i < |o|
    requires m.Some? ==> m.value in n && TagOf(m.value) == TagOf(o[i])
    requires m.None? ==> TagOf(o[i]) !in Tags(n)
    ensures m.Some? ==> m.value !in Swapped(o[..i], n)
    ensures Swapped(o[..i + 1], n) == Swapped(o[..i], n) + if m.Some? && m.value != o[i] then {m.value} else {}
  {
    var a, b := o[..i], o[..i + 1];
    assert b == a + [o[i]];
    TagsPrefix(o, i);
    assert TagOf(o[i]) !in Tags(a) by {
      forall k | 0 <= k < |a| ensures Tags(a)[k] != TagOf(o[i]) {
        assert Tags(a)[k] == Tags(o)[k] != Tags(o)[i];
      }
    }
    forall v | v in n && TagOf(v) == TagOf(o[i]) ensures m == Some(v) {
      TagsMember(n, v);
      if m.Some? { TagDetermines(n, v, m.value); }
    }
    forall v | v in a ensures TagOf(v) in Tags(a) {
      TagsMember(a, v);
    }
  }

  method EntriesByTag(entries: seq<OutboundEntry>) returns (byTag: map<string, OutboundEntry>)
    requires forall i, j :: 0 <= i < j < |entries| ==> entries[i].tag != entries[j].tag
    ensures forall k :: 0 <= k < |entries| ==> entries[k].tag in byTag && byTag[entries[k].tag] == entries[k]
    ensures forall t :: t in byTag ==> byTag[t] in entries && byTag[t].tag == t
  {
    byTag := map[];
    for i := 0 to |entries|
      invariant forall k :: 0 <= k < i ==> entries[k].tag in byTag && byTag[entries[k].tag] == entries[k]
      invariant forall t :: t in byTag ==> byTag[t] in entries && byTag[t].tag == t
    {
      byTag := byTag[entries[i].tag := entries[i]];
    }
  }

  lemma EntryTags(entries: seq<OutboundEntry>, items: seq<Json>)
    requires EntriesOf(entries, items) && OutboundsOk(items)
    ensures forall i, j :: 0 <= i < j < |entries| ==> entries[i].tag != entries[j].tag
  {
    forall i, j | 0 <= i < j < |entries| ensures entries[i].tag != entries[j].tag {
      assert Tags(items)[i] == entries[i].tag && Tags(items)[j] == entries[j].tag;
    }
  }

  /** What a lookup by tag finds among the entries of `items`. */
  lemma Lookup(entries: seq<OutboundEntry>, items: seq<Json>, byTag: map<string, OutboundEntry>, tag: string)
    requires EntriesOf(entries, items)
    requires forall k :: 0 <= k < |entries| ==> entries[k].tag in byTag && byTag[entries[k].tag] == entries[k]
    requires forall t :: t in byTag ==> byTag[t] in entries && byTag[t].tag == t
    ensures tag in byTag <==> tag in Tags(items)
    ensures tag in byTag ==> var v := byTag[tag].raw;
      v in items && TagOf(v) == tag && Valid(v) && byTag[tag].norm == Print(v)
  {
    if tag in byTag {
      var k :| 0 <= k < |entries| && entries[k] == byTag[tag];
      assert entries[k] == EntryOf(items[k]) && Tags(items)[k] == tag;
    }
    if tag in Tags(items) {
      var k :| 0 <= k < |items| && Tags(items)[k] == tag;
      assert entries[k].tag == tag;
    }
  }

  lemma SameDefault(oldE: OutboundEntry, newE: OutboundEntry, v: Json, w: Json)
    requires oldE == EntryOf(v) && newE == EntryOf(w) && Valid(v) && Valid(w)
    ensures oldE.tag == newE.tag && oldE.norm == newE.norm <==> v == w
  {
    PrintInjective(v, w);
  }

  method DiffOutbounds(oldCfg: Config, newCfg: Config, diff: HotDiff) returns (ok: bool)
    modifies diff`removedOutboundTags, diff`addedOutbounds
    ensures ok <==> OutboundsReloadable(Outbounds(oldCfg.outbounds), Outbounds(newCfg.outbounds))
    ensures ok ==> OutboundOps(old(diff.Value()), diff.Value(),
                               Outbounds(oldCfg.outbounds).value, Outbounds(newCfg.outbounds).value)
  {
    var oldOut, okOld := ParseOutbounds(oldCfg.outbounds);
    if !okOld {
      return false;
    }
    var newOut, okNew := ParseOutbounds(newCfg.outbounds);
    if !okNew {
      return false;
    }
    ok := DiffParsed(oldOut, newOut, Outbounds(oldCfg.outbounds).value, Outbounds(newCfg.outbounds).value, diff);
  }

  method DiffParsed(oldOut: seq<OutboundEntry>, newOut: seq<OutboundEntry>,
                    ghost o: seq<Json>, ghost n: seq<Json>, diff: HotDiff) returns (ok: bool)
    requires EntriesOf(oldOut, o) && EntriesOf(newOut, n) && OutboundsOk(o) && OutboundsOk(n)
    modifies diff`removedOutboundTags, diff`addedOutbounds
    ensures ok <==> OutboundsReloadable(Some(o), Some(n))
    ensures ok ==> OutboundOps(old(diff.Value()), diff.Value(), o, n)
  {
    if (|oldOut| == 0) != (|newOut| == 0) {
      return false;
    }
    if |oldOut| > 0 {
      SameDefault(oldOut[0], newOut[0], o[0], n[0]);
      if oldOut[0].tag != newOut[0].tag || oldOut[0].norm != newOut[0].norm {
        return false;
      }
    }
    DiffEntries(oldOut, newOut, o, n, diff);
    return true;
  }

  /** The outbound lists the diff carries. */
  ghost predicate OutboundOps(before: Ops, now: Ops, o: seq<Json>, n: seq<Json>) {
    && Appended(before.removedOutbounds, now.removedOutbounds, Gone(o, n))
    && Appended(before.addedOutbounds, now.addedOutbounds, Swapped(o, n) + Unseen(o, n))
  }

  /** The two loops over parsed outbounds. */
  method DiffEntries(oldOut: seq<OutboundEntry>, newOut: seq<OutboundEntry>,
                     ghost o: seq<Json>, ghost n: seq<Json>, diff: HotDiff)
    requires EntriesOf(oldOut, o) && EntriesOf(newOut, n) && OutboundsOk(o) && OutboundsOk(n)
    modifies diff`removedOutboundTags, diff`addedOutbounds
    ensures OutboundOps(old(diff.Value()), diff.Value(), o, n)
  {
    EntryTags(oldOut, o);
    EntryTags(newOut, n);
    var oldByTag := EntriesByTag(oldOut);
    var newByTag := EntriesByTag(newOut);
    ghost var added0 := diff.addedOutbounds;
    RetireEntries(oldOut, o, newByTag, newOut, n, diff);
    ghost var middle := diff.addedOutbounds;
    AdmitEntries(newOut, n, oldByTag, oldOut, o, diff);
    AppendMany(added0, middle, diff.addedOutbounds, Swapped(o, n), Unseen(o, n));
  }

  /** What the i-th old entry adds to the two lists, `m` being what the new list holds under its tag. */
  lemma OldEntryStep(o: seq<Json>, i: nat, n: seq<Json>, m: Option<Json>)
    requires OutboundsOk(o) && OutboundsOk(n) && i < |o| && Valid(o[i])
    requires m.Some? ==> m.value in n && TagOf(m.value) == TagOf(o[i]) && Valid(m.value)
    requires m.None? ==> TagOf(o[i]) !in Tags(n)
    ensures m.Some? && Print(m.value) == Print(o[i]) ==>
      Gone(o[..i + 1], n) == Gone(o[..i], n) && Swapped(o[..i + 1], n) == Swapped(o[..i], n)
    ensures m.None? || Print(m.value) != Print(o[i]) ==>
      && TagOf(o[i]) !in Gone(o[..i], n) && Gone(o[..i + 1], n) == Gone(o[..i], n) + {TagOf(o[i])}
      && (m.Some? ==> m.value !in Swapped(o[..i], n))
      && Swapped(o[..i + 1], n) == Swapped(o[..i], n) + if m.Some? then {m.value} else {}
  {
    GoneStep(o, i, n);
    SwappedStep(o, i, n, m);
    SameEntry(o, i, n, m);
  }

  method RetireEntries(oldOut: seq<OutboundEntry>, ghost o: seq<Json>, newByTag: map<string, OutboundEntry>,
                       ghost newOut: seq<OutboundEntry>, ghost n: seq<Json>, diff: HotDiff)
    requires EntriesOf(oldOut, o) && EntriesOf(newOut, n) && OutboundsOk(o) && OutboundsOk(n)
    requires forall k :: 0 <= k < |newOut| ==> newOut[k].tag in newByTag && newByTag[newOut[k].tag] == newOut[k]
    requires forall t :: t in newByTag ==> newByTag[t] in newOut && newByTag[t].tag == t
    modifies diff`removedOutboundTags, diff`addedOutbounds
    ensures Appended(old(diff.removedOutboundTags), diff.removedOutboundTags, Gone(o, n))
    ensures Appended(old(diff.addedOutbounds), diff.addedOutbounds, Swapped(o, n))
  {
    ghost var removed0, added0 := diff.removedOutboundTags, diff.addedOutbounds;
    for i := 0 to |oldOut|
      invariant Appended(removed0, diff.removedOutboundTags, Gone(o[..i], n))
      invariant Appended(added0, diff.addedOutbounds, Swapped(o[..i], n))
    {
      var oldE := oldOut[i];
      assert oldE == EntryOf(o[i]);
      Lookup(newOut, n, newByTag, oldE.tag);
      var exists_ := oldE.tag in newByTag;
      ghost var m := if exists_ then Some(newByTag[oldE.tag].raw) else None;
      OldEntryStep(o, i, n, m);
      if exists_ && oldE.norm == newByTag[oldE.tag].norm {
        continue;
      }
      AppendOne(removed0, diff.removedOutboundTags, Gone(o[..i], n), oldE.tag);
      diff.removedOutboundTags := diff.removedOutboundTags + [oldE.tag];
      if exists_ {
        AppendOne(added0, diff.addedOutbounds, Swapped(o[..i], n), m.value);
        diff.addedOutbounds := diff.addedOutbounds + [newByTag[oldE.tag].raw];
      }
    }
    assert o[..|oldOut|] == o;
  }

  method AdmitEntries(newOut: seq<OutboundEntry>, ghost n: seq<Json>, oldByTag: map<string, OutboundEntry>,
                      ghost oldOut: seq<OutboundEntry>, ghost o: seq<Json>, diff: HotDiff)
    requires EntriesOf(newOut, n) && EntriesOf(oldOut, o) && OutboundsOk(n)
    requires forall k :: 0 <= k < |oldOut| ==> oldOut[k].tag in oldByTag && oldByTag[oldOut[k].tag] == oldOut[k]
    requires forall t :: t in oldByTag ==> oldByTag[t] in oldOut && oldByTag[t].tag == t
    modifies diff`addedOutbounds
    ensures Appended(old(diff.addedOutbounds), diff.addedOutbounds, Unseen(o, n))
  {
    ghost var before := diff.addedOutbounds;
    for i := 0 to |newOut|
      invariant Appended(before, diff.addedOutbounds, Unseen(o, n[..i]))
    {
      assert newOut[i] == EntryOf(n[i]);
      Lookup(oldOut, o, oldByTag, newOut[i].tag);
      UnseenStep(o, n, i);
      if newOut[i].tag !in oldByTag {
        AppendOne(before, diff.addedOutbounds, Unseen(o, n[..i]), newOut[i].raw);
        diff.addedOutbounds := diff.addedOutbounds + [newOut[i].raw];
      }
    }
    assert n[..|newOut|] == n;
  }

  lemma UnseenStep(o: seq<Json>, n: seq<Json>, i: nat)
    requires OutboundsOk(n) && i < |n|
    ensures n[i] !in Unseen(o, n[..i])
    ensures Unseen(o, n[..i + 1]) == Unseen(o, n[..i]) + if TagOf(n[i]) in Tags(o) then {} else {n[i]}
  {
    assert n[..i + 1] == n[..i] + [n[i]];
    if n[i] in n[..i] { FreshTag(n, i, n[i]); }
  }

  /** Equal canonical text under one tag means the new list holds the very entry. */
  lemma SameEntry(o: seq<Json>, i: nat, n: seq<Json>, m: Option<Json>)
    requires OutboundsOk(n) && i < |o| && Valid(o[i])
    requires m.Some? ==> m.value in n && TagOf(m.value) == TagOf(o[i]) && Valid(m.value)
    requires m.None? ==> TagOf(o[i]) !in Tags(n)
    ensures o[i] in n <==> m.Some? && Print(m.value) == Print(o[i])
    ensures o[i] in n ==> m == Some(o[i])
  {
    if m.Some? { PrintInjective(m.value, o[i]); }
    if o[i] in n {
      TagsMember(n, o[i]);
      TagDetermines(n, o[i], m.value);
    }
  }

  // ---------- routing ----------

  /** The routing section without the keys the router can replace at run time, in canonical text. */
  function RoutingWithoutReloadable(raw: Raw): Option<string> {
    if raw == "" then Some(Print(Obj(map[]))) else
      match Decode(raw)
      case Some(Null) => Some(Print(Null))
      case Some(Obj(m)) => Some(Print(Obj(m - {"rules", "balancers"})))
      case _ => None
  }

  predicate RoutingReloadable(o: Raw, n: Raw) {
    || o == n
    || (o != "" && n != "" && RoutingWithoutReloadable(o).Some?
        && RoutingWithoutReloadable(o) == RoutingWithoutReloadable(n))
  }

  method DiffRouting(oldCfg: Config, newCfg: Config, diff: HotDiff) returns (ok: bool)
    modifies diff`routingConfig
    ensures ok <==> RoutingReloadable(oldCfg.routing, newCfg.routing)
    ensures diff.routingConfig ==
      if ok && oldCfg.routing != newCfg.routing then Some(newCfg.routing) else old(diff.routingConfig)
  {
    if oldCfg.routing == newCfg.routing {
      return true;
    }
    if |oldCfg.routing| == 0 || |newCfg.routing| == 0 {
      return false;
    }
    var oldRest := RoutingWithoutReloadable(oldCfg.routing);
    if oldRest.None? {
      return false;
    }
    var newRest := RoutingWithoutReloadable(newCfg.routing);
    if newRest.None? {
      return false;
    }
    if oldRest != newRest {
      return false;
    }
    diff.routingConfig := Some(newCfg.routing);
    return true;
  }

  // ---------- the whole config ----------

  /** The sections without a reload API. */
  function StaticSections(c: Config): seq<Raw> {
    [c.log, c.dns, c.transport, c.policy, c.api, c.stats, c.reverse, c.fakeDns, c.observatory,
     c.burstObservatory, c.metrics, c.geodata, c.env]
  }

  predicate StaticsEqual(o: Config, n: Config) {
    forall i :: 0 <= i < |StaticSections(o)| ==> RawEqualNormalized(StaticSections(o)[i], StaticSections(n)[i])
  }

  /** When the change can be applied without a restart. */
  predicate Reloadable(o: Config, n: Config) {
    && StaticsEqual(o, n)
    && InboundsReloadable(o.inbounds, n.inbounds, ApiTag(n.api))
    && OutboundsReloadable(Outbounds(o.outbounds), Outbounds(n.outbounds))
    && RoutingReloadable(o.routing, n.routing)
  }

  /** The operations that describe a reloadable change, up to the order maps are walked in. */
  ghost predicate Describes(d: Ops, o: Config, n: Config)
    requires Reloadable(o, n)
  {
    && InboundOps(NO_OPS, d, o.inbounds, n.inbounds, ApiTag(n.api))
    && OutboundOps(NO_OPS, d, Outbounds(o.outbounds).value, Outbounds(n.outbounds).value)
    && d.routing == if o.routing == n.routing then None else Some(n.routing)
  }

  method CompareStatics(olds: seq<Raw>, news: seq<Raw>) returns (equal: bool)
    requires |olds| == |news|
    ensures equal <==> forall i :: 0 <= i < |olds| ==> RawEqualNormalized(olds[i], news[i])
  {
    for i := 0 to |olds|
      invariant forall k :: 0 <= k < i ==> RawEqualNormalized(olds[k], news[k])
    {
      if !RawEqualNormalized(olds[i], news[i]) {
        return false;
      }
    }
    return true;
  }

  /** ComputeHotDiff: the diff is null exactly when a full restart is needed. */
  method ComputeHotDiff(oldCfg: Option<Config>, newCfg: Option<Config>) returns (diff: HotDiff?, ok: bool)
    ensures ok <==> diff != null
    ensures ok <==> oldCfg.Some? && newCfg.Some? && Reloadable(oldCfg.value, newCfg.value)
    ensures ok ==> fresh(diff) && Describes(diff.Value(), oldCfg.value, newCfg.value)
  {
    if oldCfg.None? || newCfg.None? {
      return null, false;
    }
    var o, n := oldCfg.value, newCfg.value;
    ok := CompareStatics(StaticSections(o), StaticSections(n));
    if !ok {
      return null, false;
    }
    var d := new HotDiff();
    ok := DiffInbounds(o, n, d);
    if !ok {
      return null, false;
    }
    ok := DiffOutbounds(o, n, d);
    if !ok {
      return null, false;
    }
    ok := DiffRouting(o, n, d);
    if !ok {
      return null, false;
    }
    diff := d;
  }
}
