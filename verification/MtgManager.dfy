/** The manager of the mtg processes: one process per inbound, reloaded or restarted by fingerprint. */
module MtgManager {
  import opened Options
  import opened MtgFingerprint

  datatype Counters = Counters(up: int, down: int)

  datatype Managed = Managed(
    proc: nat, tag: string, structuralFP: string, secretsFP: string,
    apiPort: int, apiToken: string, last: map<string, Counters>)

  /** A process the operating system knows: whether it runs and which configuration it really loaded,
      the structure at its start and the secrets at its start or at its last live update. */
  datatype Proc = Proc(alive: bool, structure: Instance, secrets: seq<SecretEntry>)

  datatype Apply = Confirmed | Refused | AppliedButUnconfirmed

  /** How the outside world answers during one ensure. */
  datatype Luck = Luck(rewriteOk: bool, apply: Apply, stopOk: bool,
                       port: Option<int>, token: Option<string>, writeOk: bool, startOk: bool)

  /** `sweeps` counts orphan sweeps, `leaky` tells whether a stop ever failed. */
  datatype State = State(procs: map<int, Managed>, swept: bool,
                         table: map<nat, Proc>, nextPid: nat, sweeps: nat, leaky: bool)

  /** The two fingerprint functions; what the manager guarantees holds for any. */
  datatype Prints = Prints(structural: Instance -> string, secrets: seq<SecretEntry> -> string)

  const PRINTS := Prints(StructuralFingerprint, SecretsFingerprint)

  datatype Action = Noop | Reload | Restart

  function EnsureActionFor(running: bool, curStructFP: string, curSecretsFP: string,
                           newStructFP: string, newSecretsFP: string): Action {
    if !running || curStructFP != newStructFP then Restart
    else if curSecretsFP != newSecretsFP then Reload
    else Noop
  }

  // ---------- the operations on values ----------

  function Kill(table: map<nat, Proc>, pids: set<nat>): map<nat, Proc> {
    map p | p in table :: if p in pids then table[p].(alive := false) else table[p]
  }

  function Alive(s: State, pid: nat): bool {
    pid in s.table && s.table[pid].alive
  }

  function Sweep(s: State): State {
    if s.swept then s
    else s.(swept := true, table := Kill(s.table, s.table.Keys), sweeps := s.sweeps + 1)
  }

  function PidsOf(s: State, ids: set<int>): set<nat> {
    set id | id in ids && id in s.procs :: s.procs[id].proc
  }

  /** Stop and forget the processes of some inbounds; `fails` are those whose stop fails. */
  function Forget(s: State, ids: set<int>, fails: set<int>): State {
    s.(procs := s.procs - ids,
       table := Kill(s.table, PidsOf(s, ids - fails)),
       leaky := s.leaky || ids * fails * s.procs.Keys != {})
  }

  function StartNew(fp: Prints, s: State, inst: Instance, luck: Luck): (State, bool) {
    if luck.port.None? || luck.token.None? || !luck.writeOk || !luck.startOk then (s, false)
    else
      var m := Managed(s.nextPid, inst.tag, fp.structural(inst), fp.secrets(inst.secrets),
                       luck.port.value, luck.token.value, map[]);
      (s.(procs := s.procs[inst.id := m],
          table := s.table[s.nextPid := Proc(true, inst, inst.secrets)],
          nextPid := s.nextPid + 1), true)
  }

  function LoadSecrets(s: State, pid: nat, secrets: seq<SecretEntry>): State {
    if pid in s.table then s.(table := s.table[pid := s.table[pid].(secrets := secrets)]) else s
  }

  function StopFails(inst: Instance, luck: Luck): set<int> {
    if luck.stopOk then {} else {inst.id}
  }

  /** Stop and forget the process of an inbound and bring up a new one. */
  function Replace(fp: Prints, s: State, inst: Instance, luck: Luck): (State, bool) {
    StartNew(fp, Forget(s, {inst.id}, StopFails(inst, luck)), inst, luck)
  }

  /** What is left of a live update that was tried: unless it was refused the process has the new secrets. */
  function Updated(s: State, pid: nat, secrets: seq<SecretEntry>, apply: Apply): State {
    if apply == Refused then s else LoadSecrets(s, pid, secrets)
  }

  /** The live update of the secrets; when it is not confirmed the process is replaced. */
  function ReloadOrReplace(fp: Prints, s: State, inst: Instance, luck: Luck): (State, bool)
    requires inst.id in s.procs
  {
    var cur := s.procs[inst.id];
    var s' := Updated(s, cur.proc, inst.secrets, luck.apply);
    if !luck.rewriteOk then (s, false)
    else if luck.apply == Confirmed then
      (s'.(procs := s.procs[inst.id := cur.(tag := inst.tag, secretsFP := fp.secrets(inst.secrets))]), true)
    else Replace(fp, s', inst, luck)
  }

  function Ensure(fp: Prints, s: State, inst: Instance, luck: Luck): (State, bool) {
    if inst.id !in s.procs then StartNew(fp, s, inst, luck) else
      var cur := s.procs[inst.id];
      match EnsureActionFor(Alive(s, cur.proc), cur.structuralFP, cur.secretsFP,
                            fp.structural(inst), fp.secrets(inst.secrets))
      case Noop => (s.(procs := s.procs[inst.id := cur.(tag := inst.tag)]), true)
      case Reload => ReloadOrReplace(fp, s, inst, luck)
      case Restart => Replace(fp, s, inst, luck)
  }

  function EnsureAll(fp: Prints, s: State, desired: seq<Instance>, lucks: seq<Luck>): (r: (State, seq<bool>))
    requires |lucks| == |desired|
    ensures |r.1| == |desired|
  {
    if desired == [] then (s, []) else
      var n := |desired| - 1;
      var (s1, oks) := EnsureAll(fp, s, desired[..n], lucks[..n]);
      var (s2, ok) := Ensure(fp, s1, desired[n], lucks[n]);
      (s2, oks + [ok])
  }

  function Ids(desired: seq<Instance>): set<int> {
    set inst | inst in desired :: inst.id
  }

  function Reconcile(fp: Prints, s: State, desired: seq<Instance>, lucks: seq<Luck>,
                     fails: set<int>): (State, seq<bool>)
    requires |lucks| == |desired|
  {
    var s1 := Sweep(s);
    EnsureAll(fp, Forget(s1, s1.procs.Keys - Ids(desired), fails), desired, lucks)
  }

  // ---------- the manager ----------

  class Manager {
    var procs: map<int, Managed>
    var swept: bool
    var table: map<nat, Proc>
    var nextPid: nat
    var sweeps: nat
    var leaky: bool

    function Value(): State
      reads this
    {
      State(procs, swept, table, nextPid, sweeps, leaky)
    }

    /** GetManager's fresh manager, on a host that may still run processes of a previous panel. */
    constructor (table: map<nat, Proc>, nextPid: nat)
      ensures Value() == State(map[], false, table, nextPid, 0, false)
    {
      procs, swept, this.table, this.nextPid, sweeps, leaky := map[], false, table, nextPid, 0, false;
    }

    method SweepOrphansLocked()
      modifies this
      ensures Value() == Sweep(old(Value()))
    {
      if swept {
        return;
      }
      swept := true;
      sweeps := sweeps + 1;
      table := Kill(table, table.Keys);
    }

    /** proc.Stop followed by the deletion of the entry. */
    method StopAndDelete(id: int, stopOk: bool)
      requires id in procs
      modifies this
      ensures Value() == Forget(old(Value()), {id}, if stopOk then {} else {id})
    {
      ghost var s := Value();
      var cur := procs[id];
      if stopOk {
        table := Kill(table, {cur.proc});
        assert PidsOf(s, {id} - {}) == {cur.proc};
      } else {
        leaky := true;
        assert id in {id} * {id} * procs.Keys;
        assert Kill(table, PidsOf(s, {id} - {id})) == table;
      }
      procs := procs - {id};
    }

    /** Pushes the new secrets to a running process. */
    method UpdateLocked(pid: nat, inst: Instance, apply: Apply)
      modifies this`table
      ensures Value() == Updated(old(Value()), pid, inst.secrets, apply)
    {
      if apply != Refused && pid in table {
        table := table[pid := table[pid].(secrets := inst.secrets)];
      }
    }

    method EnsureLocked(inst: Instance, luck: Luck) returns (ok: bool)
      modifies this
      ensures (Value(), ok) == Ensure(PRINTS, old(Value()), inst, luck)
    {
      var structFP := PRINTS.structural(inst);
      var secFP := PRINTS.secrets(inst.secrets);
      if inst.id !in procs {
        ok := StartLocked(inst, luck);
        return;
      }
      var cur := procs[inst.id];
      var running := cur.proc in table && table[cur.proc].alive;
      var action := EnsureActionFor(running, cur.structuralFP, cur.secretsFP, structFP, secFP);
      if action == Noop {
        procs := procs[inst.id := cur.(tag := inst.tag)];
        return true;
      }
      if action == Reload {
        ok := ReloadLocked(inst, luck);
        return;
      }
      ok := ReplaceLocked(inst, luck);
    }

    /** The branch of ensureLocked for changed secrets, falling through to a replacement. */
    method ReloadLocked(inst: Instance, luck: Luck) returns (ok: bool)
      requires inst.id in procs
      modifies this
      ensures (Value(), ok) == ReloadOrReplace(PRINTS, old(Value()), inst, luck)
    {
      if !luck.rewriteOk {
        return false;
      }
      var cur := procs[inst.id];
      UpdateLocked(cur.proc, inst, luck.apply);
      if luck.apply == Confirmed {
        procs := procs[inst.id := cur.(tag := inst.tag, secretsFP := PRINTS.secrets(inst.secrets))];
        return true;
      }
      ok := ReplaceLocked(inst, luck);
    }

    method ReplaceLocked(inst: Instance, luck: Luck) returns (ok: bool)
      requires inst.id in procs
      modifies this
      ensures (Value(), ok) == Replace(PRINTS, old(Value()), inst, luck)
    {
      StopAndDelete(inst.id, luck.stopOk);
      ok := StartLocked(inst, luck);
    }

    /** The part of ensureLocked that brings up a new process. */
    method StartLocked(inst: Instance, luck: Luck) returns (ok: bool)
      modifies this
      ensures (Value(), ok) == StartNew(PRINTS, old(Value()), inst, luck)
    {
      if luck.port.None? {
        return false;
      }
      if luck.token.None? {
        return false;
      }
      if !luck.writeOk {
        return false;
      }
      if !luck.startOk {
        return false;
      }
      table := table[nextPid := Proc(true, inst, inst.secrets)];
      procs := procs[inst.id := Managed(nextPid, inst.tag, PRINTS.structural(inst), PRINTS.secrets(inst.secrets),
                                        luck.port.value, luck.token.value, map[])];
      nextPid := nextPid + 1;
      return true;
    }

    method EnsureOne(inst: Instance, luck: Luck) returns (ok: bool)
      modifies this
      ensures (Value(), ok) == Ensure(PRINTS, Sweep(old(Value())), inst, luck)
    {
      SweepOrphansLocked();
      ok := EnsureLocked(inst, luck);
    }

    method Remove(id: int, stopOk: bool)
      modifies this
      ensures Value() ==
        if id in old(procs) then Forget(old(Value()), {id}, if stopOk then {} else {id}) else old(Value())
    {
      if id in procs {
        StopAndDelete(id, stopOk);
      }
    }

    /** Stops some of the processes, in the order the map happens to be walked. */
    method ForgetEach(ids: set<int>, fails: set<int>)
      requires ids <= procs.Keys
      modifies this
      ensures Value() == Forget(old(Value()), ids, fails)
    {
      ghost var s := Value();
      var todo := ids;
      ForgetNone(s, fails);
      while todo != {}
        invariant todo <= ids
        invariant Value() == Forget(s, ids - todo, fails)
        decreases todo
      {
        ghost var member := SomeMember(todo);
        var id :| id in todo;
        ForgetOneMore(s, ids - todo, fails, id);
        assert ids - (todo - {id}) == (ids - todo) + {id};
        todo := todo - {id};
        StopAndDelete(id, id !in fails);
      }
      assert ids - todo == ids;
    }

    method ReconcileAll(desired: seq<Instance>, lucks: seq<Luck>, fails: set<int>) returns (oks: seq<bool>)
      requires |lucks| == |desired|
      modifies this
      ensures (Value(), oks) == Reconcile(PRINTS, old(Value()), desired, lucks, fails)
    {
      SweepOrphansLocked();
      var want := Wanted(desired);
      ForgetEach(procs.Keys - want, fails);
      oks := EnsureEach(desired, lucks);
    }

    static method Wanted(desired: seq<Instance>) returns (want: set<int>)
      ensures want == Ids(desired)
    {
      want := {};
      for i := 0 to |desired|
        invariant want == Ids(desired[..i])
      {
        assert desired[..i + 1] == desired[..i] + [desired[i]];
        want := want + {desired[i].id};
      }
      assert desired[..|desired|] == desired;
    }

    method EnsureEach(desired: seq<Instance>, lucks: seq<Luck>) returns (oks: seq<bool>)
      requires |lucks| == |desired|
      modifies this
      ensures (Value(), oks) == EnsureAll(PRINTS, old(Value()), desired, lucks)
    {
      ghost var s := Value();
      oks := [];
      for i := 0 to |desired|
        invariant (Value(), oks) == EnsureAll(PRINTS, s, desired[..i], lucks[..i])
      {
        assert desired[..i + 1][..i] == desired[..i] && lucks[..i + 1][..i] == lucks[..i];
        var ok := EnsureLocked(desired[i], lucks[i]);
        oks := oks + [ok];
      }
      assert desired[..|desired|] == desired && lucks[..|desired|] == lucks;
    }

    method StopAll(fails: set<int>)
      modifies this
      ensures Value() == Forget(old(Value()), old(procs).Keys, fails)
    {
      ForgetEach(procs.Keys, fails);
    }
  }

  lemma SomeMember<T>(s: set<T>) returns (x: T)
    requires s != {}
    ensures x in s
  {
    x :| x in s;
  }

  lemma ForgetNone(s: State, fails: set<int>)
    ensures Forget(s, {}, fails) == s
  {
    assert PidsOf(s, {} - fails) == {};
    assert Kill(s.table, {}) == s.table;
    assert {} * fails * s.procs.Keys == {};
  }

  lemma ForgetOneMore(s: State, done: set<int>, fails: set<int>, id: int)
    requires id in s.procs && id !in done
    ensures Forget(Forget(s, done, fails), {id}, if id !in fails then {} else {id}) == Forget(s, done + {id}, fails)
  {
    var mid := Forget(s, done, fails);
    var last := if id !in fails then {} else {id};
    assert mid.procs[id] == s.procs[id];
    assert PidsOf(s, done + {id} - fails) == PidsOf(s, done - fails) + PidsOf(mid, {id} - last);
    assert Kill(mid.table, PidsOf(mid, {id} - last)) == Kill(s.table, PidsOf(s, done + {id} - fails));
    assert (done + {id}) * fails * s.procs.Keys == done * fails * s.procs.Keys + {id} * last * mid.procs.Keys;
    assert mid.procs - {id} == s.procs - (done + {id});
  }
}
