/** What the mtg manager guarantees: over every run, and after one and after two reconciliations. */
module MtgReconcile {
  import opened MtgFingerprint
  import opened MtgManager
  import opened Options

  // ---------- every run ----------

  /** An entry's fingerprints are those of the configuration its process really loaded. */
  ghost predicate EntryTrue(fp: Prints, s: State, id: int)
    requires id in s.procs
  {
    var m := s.procs[id];
    && m.proc in s.table
    && m.structuralFP == fp.structural(s.table[m.proc].structure)
    && m.secretsFP == fp.secrets(s.table[m.proc].secrets)
  }

  ghost predicate Owned(s: State, pid: nat) {
    exists id :: id in s.procs && s.procs[id].proc == pid
  }

  ghost predicate Good(fp: Prints, s: State) {
    && (forall id :: id in s.procs ==> EntryTrue(fp, s, id))
    && (forall i, j :: i in s.procs && j in s.procs && i != j ==> s.procs[i].proc != s.procs[j].proc)
    && (forall p :: p in s.table ==> p < s.nextPid)
    && s.sweeps == (if s.swept then 1 else 0)
    && (!s.swept ==> s.procs == map[])
    && (s.swept && !s.leaky ==> forall p :: Alive(s, p) ==> Owned(s, p))
  }

  datatype Event =
    | EvEnsure(inst: Instance, luck: Luck)
    | EvRemove(id: int, stopOk: bool)
    | EvReconcile(desired: seq<Instance>, lucks: seq<Luck>, fails: set<int>)
    | EvStopAll(fails: set<int>)
    | EvCrash(pid: nat)

  function Step(fp: Prints, s: State, e: Event): State {
    match e
    case EvEnsure(inst, luck) => Ensure(fp, Sweep(s), inst, luck).0
    case EvRemove(id, stopOk) => if id in s.procs then Forget(s, {id}, if stopOk then {} else {id}) else s
    case EvReconcile(desired, lucks, fails) =>
      if |lucks| == |desired| then Reconcile(fp, s, desired, lucks, fails).0 else s
    case EvStopAll(fails) => Forget(s, s.procs.Keys, fails)
    case EvCrash(pid) => s.(table := Kill(s.table, {pid}))
  }

  function Run(fp: Prints, s: State, events: seq<Event>): State {
    if events == [] then s else Step(fp, Run(fp, s, events[..|events| - 1]), events[|events| - 1])
  }

  /** A new manager on a host where processes of an earlier panel may still run. */
  ghost predicate Initial(s: State) {
    && s.procs == map[] && !s.swept && s.sweeps == 0 && !s.leaky
    && forall p :: p in s.table ==> p < s.nextPid
  }

  lemma SweepGood(fp: Prints, s: State)
    requires Good(fp, s)
    ensures Good(fp, Sweep(s)) && Sweep(s).swept
  {
  }

  lemma ForgetGood(fp: Prints, s: State, ids: set<int>, fails: set<int>)
    requires Good(fp, s)
    ensures Good(fp, Forget(s, ids, fails))
  {
    var t := Forget(s, ids, fails);
    forall id | id in t.procs ensures EntryTrue(fp, t, id) {
      assert EntryTrue(fp, s, id);
    }
    if t.swept && !t.leaky {
      forall p | Alive(t, p) ensures Owned(t, p) {
        assert Alive(s, p) && Owned(s, p);
        var id :| id in s.procs && s.procs[id].proc == p;
        assert id !in ids * fails * s.procs.Keys;
        assert id in ids - fails ==> p in PidsOf(s, ids - fails);
        assert id in t.procs && t.procs[id].proc == p;
      }
    }
  }

  lemma StartGood(fp: Prints, s: State, inst: Instance, luck: Luck)
    requires Good(fp, s) && s.swept && inst.id !in s.procs
    ensures Good(fp, StartNew(fp, s, inst, luck).0)
  {
    var t := StartNew(fp, s, inst, luck).0;
    forall id | id in t.procs ensures EntryTrue(fp, t, id) {
      if id != inst.id { assert EntryTrue(fp, s, id); }
    }
    forall i, j | i in t.procs && j in t.procs && i != j ensures t.procs[i].proc != t.procs[j].proc {
      if i != inst.id { assert EntryTrue(fp, s, i); }
      if j != inst.id { assert EntryTrue(fp, s, j); }
    }
    if !t.leaky && t != s {
      forall p | Alive(t, p) ensures Owned(t, p) {
        if p == s.nextPid {
          assert t.procs[inst.id].proc == p;
        } else {
          assert Alive(s, p);
          var id :| id in s.procs && s.procs[id].proc == p;
          assert t.procs[id].proc == p;
        }
      }
    }
  }

  /** Loading secrets into an owned process disturbs nobody's entry but its owner's. */
  lemma LoadOthersTrue(fp: Prints, s: State, id: int, secrets: seq<SecretEntry>)
    requires Good(fp, s) && id in s.procs
    ensures var t := LoadSecrets(s, s.procs[id].proc, secrets);
      && forall j :: j in s.procs && j != id ==> EntryTrue(fp, t, j)
  {
    forall j | j in s.procs && j != id ensures EntryTrue(fp, LoadSecrets(s, s.procs[id].proc, secrets), j) {
      assert EntryTrue(fp, s, j);
    }
  }

  /** A live update followed by a stop: whatever was applied, the entry is gone. */
  lemma LoadThenForgetGood(fp: Prints, s: State, id: int, secrets: seq<SecretEntry>, fails: set<int>)
    requires Good(fp, s) && id in s.procs
    ensures Good(fp, Forget(LoadSecrets(s, s.procs[id].proc, secrets), {id}, fails))
  {
    var l := LoadSecrets(s, s.procs[id].proc, secrets);
    var t := Forget(l, {id}, fails);
    LoadOthersTrue(fp, s, id, secrets);
    forall j | j in t.procs ensures EntryTrue(fp, t, j) {
      assert EntryTrue(fp, l, j);
    }
    ForgetGood(fp, s, {id}, fails);
    var u := Forget(s, {id}, fails);
    assert t.procs == u.procs && t.leaky == u.leaky;
    if t.swept && !t.leaky {
      forall p | Alive(t, p) ensures Owned(t, p) {
        assert PidsOf(l, {id} - fails) == PidsOf(s, {id} - fails);
        assert Alive(u, p) && Owned(u, p);
      }
    }
  }

  lemma RetagGood(fp: Prints, s: State, id: int, tag: string)
    requires Good(fp, s) && id in s.procs
    ensures Good(fp, s.(procs := s.procs[id := s.procs[id].(tag := tag)]))
  {
    var t := s.(procs := s.procs[id := s.procs[id].(tag := tag)]);
    forall j | j in t.procs ensures EntryTrue(fp, t, j) { assert EntryTrue(fp, s, j); }
    forall p | Owned(s, p) ensures Owned(t, p) {
      var j :| j in s.procs && s.procs[j].proc == p;
      assert t.procs[j].proc == p;
    }
    assert forall p :: Alive(t, p) ==> Alive(s, p);
  }

  lemma ReloadGood(fp: Prints, s: State, inst: Instance, secFP: string)
    requires Good(fp, s) && inst.id in s.procs && secFP == fp.secrets(inst.secrets)
    ensures var cur := s.procs[inst.id];
      var managed := cur.(tag := inst.tag, secretsFP := secFP);
      Good(fp, LoadSecrets(s, cur.proc, inst.secrets).(procs := s.procs[inst.id := managed]))
  {
    var cur := s.procs[inst.id];
    var l := LoadSecrets(s, cur.proc, inst.secrets);
    var t := l.(procs := s.procs[inst.id := cur.(tag := inst.tag, secretsFP := secFP)]);
    LoadOthersTrue(fp, s, inst.id, inst.secrets);
    assert EntryTrue(fp, s, inst.id);
    forall j | j in t.procs ensures EntryTrue(fp, t, j) {
      if j != inst.id { assert EntryTrue(fp, l, j); }
    }
    forall p | Owned(s, p) ensures Owned(t, p) {
      var j :| j in s.procs && s.procs[j].proc == p;
      assert t.procs[j].proc == p;
    }
    assert forall p :: Alive(t, p) ==> Alive(s, p);
  }

  lemma EnsureGood(fp: Prints, s: State, inst: Instance, luck: Luck)
    requires Good(fp, s) && s.swept
    ensures Good(fp, Ensure(fp, s, inst, luck).0) && Ensure(fp, s, inst, luck).0.swept
  {
    if inst.id !in s.procs {
      StartGood(fp, s, inst, luck);
    } else {
      var cur := s.procs[inst.id];
      var secFP := fp.secrets(inst.secrets);
      var fails := StopFails(inst, luck);
      match EnsureActionFor(Alive(s, cur.proc), cur.structuralFP, cur.secretsFP, fp.structural(inst), secFP)
      case Noop => RetagGood(fp, s, inst.id, inst.tag);
      case Reload =>
        if luck.rewriteOk {
          if luck.apply == Confirmed {
            ReloadGood(fp, s, inst, secFP);
          } else if luck.apply == Refused {
            ForgetGood(fp, s, {inst.id}, fails);
            StartGood(fp, Forget(s, {inst.id}, fails), inst, luck);
          } else {
            LoadThenForgetGood(fp, s, inst.id, inst.secrets, fails);
            StartGood(fp, Forget(LoadSecrets(s, cur.proc, inst.secrets), {inst.id}, fails), inst, luck);
          }
        }
      case Restart =>
        ForgetGood(fp, s, {inst.id}, fails);
        StartGood(fp, Forget(s, {inst.id}, fails), inst, luck);
    }
  }

  lemma {:induction false} EnsureAllGood(fp: Prints, s: State, desired: seq<Instance>, lucks: seq<Luck>)
    requires Good(fp, s) && s.swept && |lucks| == |desired|
    ensures Good(fp, EnsureAll(fp, s, desired, lucks).0)
    ensures EnsureAll(fp, s, desired, lucks).0.swept
  {
    if desired != [] {
      var n := |desired| - 1;
      EnsureAllGood(fp, s, desired[..n], lucks[..n]);
      EnsureGood(fp, EnsureAll(fp, s, desired[..n], lucks[..n]).0, desired[n], lucks[n]);
    }
  }

  lemma StepGood(fp: Prints, s: State, e: Event)
    requires Good(fp, s)
    ensures Good(fp, Step(fp, s, e))
  {
    match e
    case EvEnsure(inst, luck) =>
      SweepGood(fp, s);
      EnsureGood(fp, Sweep(s), inst, luck);
    case EvRemove(id, stopOk) => ForgetGood(fp, s, {id}, if stopOk then {} else {id});
    case EvReconcile(desired, lucks, fails) =>
      if |lucks| == |desired| {
        SweepGood(fp, s);
        var s1 := Sweep(s);
        ForgetGood(fp, s1, s1.procs.Keys - Ids(desired), fails);
        EnsureAllGood(fp, Forget(s1, s1.procs.Keys - Ids(desired), fails), desired, lucks);
      }
    case EvStopAll(fails) => ForgetGood(fp, s, s.procs.Keys, fails);
    case EvCrash(pid) => CrashGood(fp, s, pid);
  }

  lemma CrashGood(fp: Prints, s: State, pid: nat)
    requires Good(fp, s)
    ensures Good(fp, s.(table := Kill(s.table, {pid})))
  {
    var t := s.(table := Kill(s.table, {pid}));
    forall id | id in t.procs ensures EntryTrue(fp, t, id) { assert EntryTrue(fp, s, id); }
    forall p | Alive(t, p) && t.swept && !t.leaky ensures Owned(t, p) {
      assert Alive(s, p) && Owned(s, p);
    }
  }

  /** Over every run: the fingerprints of every entry describe what its process really loaded, no two
      entries share a process, the sweep ran at most once and only while nothing was managed, and while
      stops succeed every mtg process alive after the sweep belongs to an entry. */
  lemma {:induction false} EveryRunIsGood(fp: Prints, s: State, events: seq<Event>)
    requires Initial(s)
    ensures Good(fp, Run(fp, s, events))
  {
    if events != [] {
      EveryRunIsGood(fp, s, events[..|events| - 1]);
      StepGood(fp, Run(fp, s, events[..|events| - 1]), events[|events| - 1]);
    }
  }

  /** The orphan sweep never kills a process of the manager's own. */
  lemma SweepSparesOwn(fp: Prints, s: State, id: int)
    requires Good(fp, s) && id in s.procs
    ensures Sweep(s) == s
  {
  }

  // ---------- processes that are stopped ----------

  /** Forgetting inbounds stops exactly the processes of those whose stop does not fail, and forgets them all. */
  lemma ForgetExactly(s: State, ids: set<int>, fails: set<int>, pid: nat)
    requires pid in s.table
    ensures Forget(s, ids, fails).procs == s.procs - ids && pid in Forget(s, ids, fails).table
    ensures Forget(s, ids, fails).table[pid] ==
      if exists id :: id in ids && id !in fails && id in s.procs && s.procs[id].proc == pid
      then s.table[pid].(alive := false)
      else s.table[pid]
  {
    if id :| id in ids && id !in fails && id in s.procs && s.procs[id].proc == pid {
      assert id in ids - fails && pid in PidsOf(s, ids - fails);
    }
  }

  lemma ReplaceStops(fp: Prints, s: State, inst: Instance, luck: Luck, pid: nat)
    requires inst.id in s.procs && s.procs[inst.id].proc == pid && pid in s.table && pid < s.nextPid && luck.stopOk
    ensures !Alive(Replace(fp, s, inst, luck).0, pid)
  {
    ForgetExactly(s, {inst.id}, {}, pid);
  }

  lemma ReloadStops(fp: Prints, s: State, inst: Instance, luck: Luck, pid: nat)
    requires inst.id in s.procs && s.procs[inst.id].proc == pid && pid in s.table && pid < s.nextPid && luck.stopOk
    requires luck.rewriteOk && luck.apply != Confirmed
    ensures !Alive(ReloadOrReplace(fp, s, inst, luck).0, pid)
  {
    ReplaceStops(fp, Updated(s, pid, inst.secrets, luck.apply), inst, luck, pid);
  }

  /** A process that an ensure replaces is stopped, unless its stop fails. */
  lemma ReplacedIsStopped(fp: Prints, s: State, inst: Instance, luck: Luck)
    requires Good(fp, s) && inst.id in s.procs && luck.stopOk
    ensures var (pid, t) := (s.procs[inst.id].proc, Ensure(fp, s, inst, luck).0);
      Alive(t, pid) ==> inst.id in t.procs && t.procs[inst.id].proc == pid
  {
    var pid := s.procs[inst.id].proc;
    assert EntryTrue(fp, s, inst.id);
    ReplaceStops(fp, s, inst, luck, pid);
    if luck.rewriteOk && luck.apply != Confirmed { ReloadStops(fp, s, inst, luck, pid); }
  }

  /** Every stop the event asks for succeeds. */
  predicate StopsSucceed(e: Event) {
    match e
    case EvEnsure(_, luck) => luck.stopOk
    case EvRemove(_, stopOk) => stopOk
    case EvReconcile(_, lucks, fails) => fails == {} && forall i :: 0 <= i < |lucks| ==> lucks[i].stopOk
    case EvStopAll(fails) => fails == {}
    case EvCrash(_) => true
  }

  lemma EnsureDoesNotLeak(fp: Prints, s: State, inst: Instance, luck: Luck)
    requires luck.stopOk
    ensures Ensure(fp, s, inst, luck).0.leaky == s.leaky
  {
    assert {inst.id} * {} * s.procs.Keys == {};
  }

  lemma {:induction false} EnsureAllDoesNotLeak(fp: Prints, s: State, desired: seq<Instance>, lucks: seq<Luck>)
    requires |lucks| == |desired| && forall i :: 0 <= i < |lucks| ==> lucks[i].stopOk
    ensures EnsureAll(fp, s, desired, lucks).0.leaky == s.leaky
  {
    if desired != [] {
      var n := |desired| - 1;
      EnsureAllDoesNotLeak(fp, s, desired[..n], lucks[..n]);
      EnsureDoesNotLeak(fp, EnsureAll(fp, s, desired[..n], lucks[..n]).0, desired[n], lucks[n]);
    }
  }

  lemma ForgetDoesNotLeak(s: State, ids: set<int>)
    ensures Forget(s, ids, {}).leaky == s.leaky
  {
    assert ids * {} * s.procs.Keys == {};
  }

  lemma StepDoesNotLeak(fp: Prints, s: State, e: Event)
    requires StopsSucceed(e)
    ensures Step(fp, s, e).leaky == s.leaky
  {
    match e
    case EvEnsure(inst, luck) => EnsureDoesNotLeak(fp, Sweep(s), inst, luck);
    case EvRemove(id, _) => ForgetDoesNotLeak(s, {id});
    case EvReconcile(desired, lucks, _) =>
      if |lucks| == |desired| {
        var gone := Sweep(s).procs.Keys - Ids(desired);
        ForgetDoesNotLeak(Sweep(s), gone);
        EnsureAllDoesNotLeak(fp, Forget(Sweep(s), gone, {}), desired, lucks);
      }
    case EvStopAll(_) => ForgetDoesNotLeak(s, s.procs.Keys);
    case EvCrash(_) =>
  }

  lemma {:induction false} RunDoesNotLeak(fp: Prints, s: State, events: seq<Event>)
    requires Initial(s) && forall i :: 0 <= i < |events| ==> StopsSucceed(events[i])
    ensures !Run(fp, s, events).leaky
  {
    if events != [] {
      var n := |events| - 1;
      RunDoesNotLeak(fp, s, events[..n]);
      StepDoesNotLeak(fp, Run(fp, s, events[..n]), events[n]);
    }
  }

  /** So over every run in which the stops succeed, from the first sweep on every mtg process alive on the host belongs
      to an entry, whatever else fails. */
  lemma NoStrays(fp: Prints, s: State, events: seq<Event>, pid: nat)
    requires Initial(s) && forall i :: 0 <= i < |events| ==> StopsSucceed(events[i])
    requires Run(fp, s, events).swept && Alive(Run(fp, s, events), pid)
    ensures exists id :: id in Run(fp, s, events).procs && Run(fp, s, events).procs[id].proc == pid
  {
    EveryRunIsGood(fp, s, events);
    RunDoesNotLeak(fp, s, events);
    assert Owned(Run(fp, s, events), pid);
  }

  // ---------- one ensure ----------

  /** The entry runs with the fingerprints the instance asks for. */
  ghost predicate Matches(fp: Prints, s: State, inst: Instance) {
    && inst.id in s.procs
    && Alive(s, s.procs[inst.id].proc)
    && s.procs[inst.id].structuralFP == fp.structural(inst)
    && s.procs[inst.id].secretsFP == fp.secrets(inst.secrets)
  }

  lemma EnsureEstablishes(fp: Prints, s: State, inst: Instance, luck: Luck)
    requires Good(fp, s) && Ensure(fp, s, inst, luck).1
    ensures Matches(fp, Ensure(fp, s, inst, luck).0, inst)
    ensures Ensure(fp, s, inst, luck).0.procs[inst.id].tag == inst.tag
  {
    if inst.id in s.procs { assert EntryTrue(fp, s, inst.id); }
  }

  ghost predicate Absorbs(fp: Prints, s: State, inst: Instance, luck: Luck)
    requires inst.id in s.procs
  {
    var cur := s.procs[inst.id];
    && Alive(s, cur.proc) && cur.structuralFP == fp.structural(inst)
    && (cur.secretsFP == fp.secrets(inst.secrets) || luck.apply == Confirmed)
  }

  /** A process brought up anew is a new one. */
  lemma ReplaceIsNew(fp: Prints, s: State, inst: Instance, luck: Luck)
    requires inst.id in s.procs && s.procs[inst.id].proc < s.nextPid
    ensures var (t, ok) := Replace(fp, s, inst, luck);
      if !ok then inst.id !in t.procs else inst.id in t.procs && t.procs[inst.id].proc != s.procs[inst.id].proc
  {}

  lemma ReloadSurvivesIff(fp: Prints, s: State, inst: Instance, luck: Luck)
    requires inst.id in s.procs && s.procs[inst.id].proc < s.nextPid
    ensures var (t, ok) := ReloadOrReplace(fp, s, inst, luck);
      if !ok then t == s || inst.id !in t.procs
      else inst.id in t.procs && (t.procs[inst.id].proc == s.procs[inst.id].proc <==> luck.apply == Confirmed)
  {
    ReplaceIsNew(fp, Updated(s, s.procs[inst.id].proc, inst.secrets, luck.apply), inst, luck);
  }

  /** The process of an inbound survives a successful ensure exactly when it runs, the structure is
      unchanged, and the secrets are unchanged or their live update was confirmed. A failed ensure
      changes nothing or leaves the inbound without an entry. */
  lemma ProcessSurvivesIff(fp: Prints, s: State, inst: Instance, luck: Luck)
    requires Good(fp, s) && inst.id in s.procs
    ensures var (t, ok) := Ensure(fp, s, inst, luck);
      if !ok then t == s || inst.id !in t.procs
      else inst.id in t.procs && (t.procs[inst.id].proc == s.procs[inst.id].proc <==> Absorbs(fp, s, inst, luck))
  {
    assert EntryTrue(fp, s, inst.id);
    ReplaceIsNew(fp, s, inst, luck);
    ReloadSurvivesIff(fp, s, inst, luck);
  }

  /** An inbound that is not concerned keeps its entry and its process as they are. */
  ghost predicate Keeps(s: State, t: State, id: int) {
    && (id in t.procs <==> id in s.procs)
    && (id in s.procs ==> (
        && t.procs[id] == s.procs[id]
        && var p := s.procs[id].proc; p in s.table && p in t.table && t.table[p] == s.table[p]))
  }

  lemma StartKeepsOthers(fp: Prints, s: State, t: State, inst: Instance, luck: Luck, id: int)
    requires Keeps(s, t, id) && id != inst.id && forall p :: p in s.table ==> p < t.nextPid
    ensures Keeps(s, StartNew(fp, t, inst, luck).0, id)
  {}

  lemma ReplaceKeepsOthers(fp: Prints, s: State, l: State, inst: Instance, luck: Luck, id: int)
    requires Good(fp, s) && id != inst.id && inst.id in s.procs
    requires l == s || l == LoadSecrets(s, s.procs[inst.id].proc, inst.secrets)
    ensures Keeps(s, Replace(fp, l, inst, luck).0, id)
  {
    assert EntryTrue(fp, s, inst.id);
    if id in s.procs { assert EntryTrue(fp, s, id); }
    StartKeepsOthers(fp, s, Forget(l, {inst.id}, StopFails(inst, luck)), inst, luck, id);
  }

  lemma ReloadKeepsOthers(fp: Prints, s: State, inst: Instance, luck: Luck, id: int)
    requires Good(fp, s) && id != inst.id && inst.id in s.procs
    ensures Keeps(s, ReloadOrReplace(fp, s, inst, luck).0, id)
  {
    if id in s.procs { assert EntryTrue(fp, s, id); }
    ReplaceKeepsOthers(fp, s, Updated(s, s.procs[inst.id].proc, inst.secrets, luck.apply), inst, luck, id);
  }

  lemma EnsureKeepsOthers(fp: Prints, s: State, inst: Instance, luck: Luck, id: int)
    requires Good(fp, s) && id != inst.id
    ensures Keeps(s, Ensure(fp, s, inst, luck).0, id)
  {
    if id in s.procs { assert EntryTrue(fp, s, id); }
    if inst.id in s.procs {
      ReplaceKeepsOthers(fp, s, s, inst, luck, id);
      ReloadKeepsOthers(fp, s, inst, luck, id);
    } else {
      StartKeepsOthers(fp, s, s, inst, luck, id);
    }
  }

  /** An instance that already matches is left alone, whatever the outside world would have answered. */
  lemma EnsureLeavesAlone(fp: Prints, s: State, inst: Instance, luck: Luck)
    requires Matches(fp, s, inst)
    ensures Ensure(fp, s, inst, luck) == (s.(procs := s.procs[inst.id := s.procs[inst.id].(tag := inst.tag)]), true)
  {
  }

  // ---------- reconciling ----------

  ghost predicate DistinctIds(desired: seq<Instance>) {
    forall i, j :: 0 <= i < j < |desired| ==> desired[i].id != desired[j].id
  }

  lemma {:induction false} EnsureAllEstablishes(fp: Prints, s: State, desired: seq<Instance>, lucks: seq<Luck>, k: nat)
    requires Good(fp, s) && s.swept && |lucks| == |desired| && DistinctIds(desired) && k < |desired|
    requires EnsureAll(fp, s, desired, lucks).1[k]
    ensures Matches(fp, EnsureAll(fp, s, desired, lucks).0, desired[k])
    ensures EnsureAll(fp, s, desired, lucks).0.procs[desired[k].id].tag == desired[k].tag
  {
    var n := |desired| - 1;
    var mid := EnsureAll(fp, s, desired[..n], lucks[..n]);
    EnsureAllGood(fp, s, desired[..n], lucks[..n]);
    if k == n {
      EnsureEstablishes(fp, mid.0, desired[n], lucks[n]);
    } else {
      EnsureAllEstablishes(fp, s, desired[..n], lucks[..n], k);
      EnsureKeepsOthers(fp, mid.0, desired[n], lucks[n], desired[k].id);
    }
  }

  lemma {:induction false} EnsureAllKeys(fp: Prints, s: State, desired: seq<Instance>, lucks: seq<Luck>)
    requires Good(fp, s) && s.swept && |lucks| == |desired|
    ensures EnsureAll(fp, s, desired, lucks).0.procs.Keys <= s.procs.Keys + Ids(desired)
  {
    if desired != [] {
      var n := |desired| - 1;
      var mid := EnsureAll(fp, s, desired[..n], lucks[..n]).0;
      EnsureAllKeys(fp, s, desired[..n], lucks[..n]);
      EnsureAllGood(fp, s, desired[..n], lucks[..n]);
      forall id | id in EnsureAll(fp, s, desired, lucks).0.procs ensures id in s.procs.Keys + Ids(desired) {
        if id != desired[n].id {
          EnsureKeepsOthers(fp, mid, desired[n], lucks[n], id);
          assert id in s.procs.Keys + Ids(desired[..n]);
        } else {
          assert desired[n] in desired;
        }
      }
    }
  }

  function Cleared(s: State, desired: seq<Instance>, fails: set<int>): State {
    var s1 := Sweep(s);
    Forget(s1, s1.procs.Keys - Ids(desired), fails)
  }

  lemma ClearedGood(fp: Prints, s: State, desired: seq<Instance>, fails: set<int>)
    requires Good(fp, s)
    ensures Good(fp, Cleared(s, desired, fails)) && Cleared(s, desired, fails).swept
    ensures Cleared(s, desired, fails).procs.Keys <= Ids(desired)
  {
    SweepGood(fp, s);
    ForgetGood(fp, Sweep(s), Sweep(s).procs.Keys - Ids(desired), fails);
  }

  /** After a reconciliation nothing undesired is managed, and every desired instance either failed to
      ensure or runs with the fingerprints and under the tag it asks for. */
  lemma ReconcileConverges(fp: Prints, s: State, desired: seq<Instance>, lucks: seq<Luck>, fails: set<int>)
    requires Good(fp, s) && |lucks| == |desired| && DistinctIds(desired)
    ensures var (t, oks) := Reconcile(fp, s, desired, lucks, fails);
      && t.procs.Keys <= Ids(desired)
      && forall k :: 0 <= k < |desired| && oks[k] ==>
          Matches(fp, t, desired[k]) && t.procs[desired[k].id].tag == desired[k].tag
  {
    var s2 := Cleared(s, desired, fails);
    ClearedGood(fp, s, desired, fails);
    EnsureAllKeys(fp, s2, desired, lucks);
    forall k | 0 <= k < |desired| && EnsureAll(fp, s2, desired, lucks).1[k]
      ensures var t := EnsureAll(fp, s2, desired, lucks).0;
        Matches(fp, t, desired[k]) && t.procs[desired[k].id].tag == desired[k].tag
    {
      EnsureAllEstablishes(fp, s2, desired, lucks, k);
    }
  }

  /** A new process comes up: a free port and a token are found, the config is written and the process starts. */
  predicate BringsUp(luck: Luck) {
    luck.port.Some? && luck.token.Some? && luck.writeOk && luck.startOk
  }

  /** The entry's process runs with this structure. */
  predicate RunsAs(fp: Prints, s: State, inst: Instance) {
    && inst.id in s.procs && s.procs[inst.id].proc in s.table && s.table[s.procs[inst.id].proc].alive
    && s.procs[inst.id].structuralFP == fp.structural(inst)
  }

  /** An ensure succeeds exactly when the inbound already runs as asked, or only its secrets changed, the config was
      rewritten and the live update confirmed, or a new process comes up (after the rewrite, when only secrets
      changed). */
  lemma EnsureSucceedsExactly(fp: Prints, s: State, inst: Instance, luck: Luck)
    ensures Ensure(fp, s, inst, luck).1 <==>
      if !RunsAs(fp, s, inst) then BringsUp(luck)
      else s.procs[inst.id].secretsFP == fp.secrets(inst.secrets)
           || (luck.rewriteOk && (luck.apply == Confirmed || BringsUp(luck)))
  {
  }

  /** What the entry of a successful ensure remembers: of a surviving process its port, token and counters, of a new one
      those it was given, and no counters yet. */
  lemma EntryAfterEnsure(fp: Prints, s: State, inst: Instance, luck: Luck)
    requires Good(fp, s) && Ensure(fp, s, inst, luck).1
    ensures inst.id in Ensure(fp, s, inst, luck).0.procs
    ensures var m := Ensure(fp, s, inst, luck).0.procs[inst.id];
      if inst.id in s.procs && m.proc == s.procs[inst.id].proc
      then m.apiPort == s.procs[inst.id].apiPort && m.apiToken == s.procs[inst.id].apiToken
           && m.last == s.procs[inst.id].last
      else luck.port == Some(m.apiPort) && luck.token == Some(m.apiToken) && m.last == map[]
  {
    EnsureEstablishes(fp, s, inst, luck);
    if inst.id in s.procs {
      assert EntryTrue(fp, s, inst.id);
      ReplaceIsNew(fp, s, inst, luck);
      ReloadSurvivesIff(fp, s, inst, luck);
    }
  }

  predicate AllGoesWell(lucks: seq<Luck>) {
    forall i :: 0 <= i < |lucks| ==> lucks[i].rewriteOk && BringsUp(lucks[i])
  }

  lemma {:induction false} EnsureAllSucceeds(fp: Prints, s: State, desired: seq<Instance>, lucks: seq<Luck>, k: nat)
    requires |lucks| == |desired| && AllGoesWell(lucks) && k < |desired|
    ensures EnsureAll(fp, s, desired, lucks).1[k]
  {
    var n := |desired| - 1;
    EnsureAllLast(fp, s, desired, lucks);
    if k < n {
      EnsureAllSucceeds(fp, s, desired[..n], lucks[..n], k);
    } else {
      EnsureSucceedsExactly(fp, EnsureAll(fp, s, desired[..n], lucks[..n]).0, desired[n], lucks[n]);
    }
  }

  /** When nothing outside fails, whatever stops and live updates do, one reconciliation leaves exactly the desired
      inbounds managed, each running with its fingerprints and under its tag. */
  lemma ReconcileMatchesAll(fp: Prints, s: State, desired: seq<Instance>, lucks: seq<Luck>, fails: set<int>)
    requires Good(fp, s) && |lucks| == |desired| && DistinctIds(desired) && AllGoesWell(lucks)
    ensures var (t, oks) := Reconcile(fp, s, desired, lucks, fails);
      && t.procs.Keys == Ids(desired)
      && forall k :: 0 <= k < |desired| ==>
          oks[k] && Matches(fp, t, desired[k]) && t.procs[desired[k].id].tag == desired[k].tag
  {
    ReconcileConverges(fp, s, desired, lucks, fails);
    forall k | 0 <= k < |desired| ensures Reconcile(fp, s, desired, lucks, fails).1[k] {
      EnsureAllSucceeds(fp, Cleared(s, desired, fails), desired, lucks, k);
    }
  }

  lemma EnsureAllLast(fp: Prints, s: State, desired: seq<Instance>, lucks: seq<Luck>)
    requires |lucks| == |desired| && desired != []
    ensures var n := |desired| - 1;
      var (mid, oks) := EnsureAll(fp, s, desired[..n], lucks[..n]);
      var (t, ok) := Ensure(fp, mid, desired[n], lucks[n]);
      EnsureAll(fp, s, desired, lucks) == (t, oks + [ok])
  {}

  /** An instance goes on matching as long as its entry and its process stay. */
  lemma MatchingGoesOn(fp: Prints, s: State, t: State, inst: Instance)
    requires Matches(fp, s, inst) && inst.id in t.procs && t.procs[inst.id] == s.procs[inst.id]
    requires var p := s.procs[inst.id].proc; p in s.table && p in t.table && t.table[p] == s.table[p]
    ensures Matches(fp, t, inst)
  {}

  /** A desired instance that matches before the ensures comes out with its process untouched. */
  lemma {:induction false} EnsureAllLeavesAlone(fp: Prints, s: State, desired: seq<Instance>, lucks: seq<Luck>, k: nat)
    requires Good(fp, s) && s.swept && |lucks| == |desired| && DistinctIds(desired) && k < |desired|
    requires Matches(fp, s, desired[k])
    ensures var (t, oks) := EnsureAll(fp, s, desired, lucks);
      && oks[k]
      && desired[k].id in t.procs
      && t.procs[desired[k].id] == s.procs[desired[k].id].(tag := desired[k].tag)
      && var p := s.procs[desired[k].id].proc; p in t.table && t.table[p] == s.table[p]
  {
    var n := |desired| - 1;
    var id := desired[k].id;
    var mid := EnsureAll(fp, s, desired[..n], lucks[..n]).0;
    EnsureAllGood(fp, s, desired[..n], lucks[..n]);
    EnsureAllLast(fp, s, desired, lucks);
    if k == n {
      EnsureAllSkips(fp, s, desired[..n], lucks[..n], id);
      MatchingGoesOn(fp, s, mid, desired[n]);
      EnsureLeavesAlone(fp, mid, desired[n], lucks[n]);
    } else {
      EnsureAllLeavesAlone(fp, s, desired[..n], lucks[..n], k);
      EnsureKeepsOthers(fp, mid, desired[n], lucks[n], id);
    }
  }

  lemma {:induction false} EnsureAllSkips(fp: Prints, s: State, desired: seq<Instance>, lucks: seq<Luck>, id: int)
    requires Good(fp, s) && s.swept && |lucks| == |desired|
    requires id in s.procs && forall i :: 0 <= i < |desired| ==> desired[i].id != id
    ensures var t := EnsureAll(fp, s, desired, lucks).0;
      && id in t.procs && t.procs[id] == s.procs[id]
      && var p := s.procs[id].proc; p in s.table && p in t.table && t.table[p] == s.table[p]
  {
    if desired == [] {
      assert EntryTrue(fp, s, id);
    } else {
      var n := |desired| - 1;
      EnsureAllSkips(fp, s, desired[..n], lucks[..n], id);
      EnsureAllGood(fp, s, desired[..n], lucks[..n]);
      EnsureKeepsOthers(fp, EnsureAll(fp, s, desired[..n], lucks[..n]).0, desired[n], lucks[n], id);
    }
  }

  /** Forgetting other inbounds leaves a kept one alone. */
  lemma ForgetKeeps(fp: Prints, s: State, ids: set<int>, fails: set<int>, id: int)
    requires Good(fp, s) && id in s.procs && id !in ids
    ensures var t := Forget(s, ids, fails);
      && id in t.procs && t.procs[id] == s.procs[id]
      && var p := s.procs[id].proc; p in s.table && p in t.table && t.table[p] == s.table[p]
  {
    assert EntryTrue(fp, s, id);
  }

  /** The fingerprint of the secrets does not see their order. */
  ghost predicate IgnoresOrder(fp: Prints) {
    forall a, b :: multiset(a) == multiset(b) ==> fp.secrets(a) == fp.secrets(b)
  }

  /** The second of two reconciliations touches no process the first one got right: whatever else is
      desired now and whatever the outside world answers, an instance that was ensured and is desired
      again with its secrets in any order keeps the very same process, with nothing reloaded. */
  lemma SecondReconcileIsQuiet(fp: Prints, s: State,
                               first: seq<Instance>, lucks1: seq<Luck>, fails1: set<int>, j: nat,
                               second: seq<Instance>, lucks2: seq<Luck>, fails2: set<int>, k: nat)
    requires Good(fp, s) && IgnoresOrder(fp)
    requires |lucks1| == |first| && DistinctIds(first) && j < |first|
    requires |lucks2| == |second| && DistinctIds(second) && k < |second|
    requires Reconcile(fp, s, first, lucks1, fails1).1[j]
    requires second[k] == first[j].(tag := second[k].tag, secrets := second[k].secrets)
    requires fp.structural(second[k]) == fp.structural(first[j])
    requires multiset(second[k].secrets) == multiset(first[j].secrets)
    ensures var t := Reconcile(fp, s, first, lucks1, fails1).0;
      var (u, oks) := Reconcile(fp, t, second, lucks2, fails2);
      && oks[k] && first[j].id in t.procs && first[j].id in u.procs
      && u.procs[first[j].id] == t.procs[first[j].id].(tag := second[k].tag)
      && var p := t.procs[first[j].id].proc; p in t.table && p in u.table && u.table[p] == t.table[p]
  {
    var t := Reconcile(fp, s, first, lucks1, fails1).0;
    var id := first[j].id;
    ReconcileConverges(fp, s, first, lucks1, fails1);
    ClearedGood(fp, s, first, fails1);
    EnsureAllGood(fp, Cleared(s, first, fails1), first, lucks1);
    assert Matches(fp, t, second[k]) by {
      assert fp.secrets(second[k].secrets) == fp.secrets(first[j].secrets);
    }
    assert second[k] in second;
    SweepSparesOwn(fp, t, id);
    ForgetKeeps(fp, t, t.procs.Keys - Ids(second), fails2, id);
    ClearedGood(fp, t, second, fails2);
    EnsureAllLeavesAlone(fp, Cleared(t, second, fails2), second, lucks2, k);
  }

  /** When everything desired matches and nothing else is managed, a reconciliation starts, reloads and
      stops nothing at all. */
  lemma {:induction false} AllMatchedIsQuiet(fp: Prints, s: State, desired: seq<Instance>, lucks: seq<Luck>)
    requires Good(fp, s) && s.swept && |lucks| == |desired| && DistinctIds(desired)
    requires forall k :: 0 <= k < |desired| ==> Matches(fp, s, desired[k])
    ensures var t := EnsureAll(fp, s, desired, lucks).0;
      t.table == s.table && t.nextPid == s.nextPid && t.leaky == s.leaky
  {
    if desired != [] {
      var n := |desired| - 1;
      AllMatchedIsQuiet(fp, s, desired[..n], lucks[..n]);
      assert EntryTrue(fp, s, desired[n].id);
      EnsureAllSkips(fp, s, desired[..n], lucks[..n], desired[n].id);
      EnsureLeavesAlone(fp, EnsureAll(fp, s, desired[..n], lucks[..n]).0, desired[n], lucks[n]);
    }
  }

  /** The manager's own fingerprints: reordering the secrets changes neither. */
  lemma ManagerPrintsIgnoreOrder()
    ensures IgnoresOrder(PRINTS)
    ensures forall a: Instance, secrets :: PRINTS.structural(a.(secrets := secrets)) == PRINTS.structural(a)
    ensures forall a: Instance, tag :: PRINTS.structural(a.(tag := tag)) == PRINTS.structural(a)
  {
    forall a, b | multiset(a) == multiset(b) ensures PRINTS.secrets(a) == PRINTS.secrets(b) {
      SecretsFingerprintIgnoresOrder(a, b);
    }
    forall a: Instance, secrets ensures PRINTS.structural(a.(secrets := secrets)) == PRINTS.structural(a) {
      assert StructuralParts(a.(secrets := secrets)) == StructuralParts(a);
    }
    forall a: Instance, tag ensures PRINTS.structural(a.(tag := tag)) == PRINTS.structural(a) {
      assert StructuralParts(a.(tag := tag)) == StructuralParts(a);
    }
  }
}
