/** The tunnel health monitor: recovery after repeated failed probes, never twice within a cooldown. */
module TunnelMonitor {
  import opened Options

  const SECOND: int := 1_000_000_000
  const DEFAULT_FAILURE_THRESHOLD := 3
  const DEFAULT_COOLDOWN := 300 * SECOND

  /** `recovers` tells whether a recovery function is configured. */
  datatype Config = Config(failureThreshold: int, cooldown: int, recovers: bool)

  function Normalize(c: Config): (r: Config)
    ensures r.failureThreshold >= 1 && r.cooldown >= SECOND
  {
    Config(if c.failureThreshold < 1 then DEFAULT_FAILURE_THRESHOLD else c.failureThreshold,
           if c.cooldown < SECOND then DEFAULT_COOLDOWN else c.cooldown,
           c.recovers)
  }

  datatype State = State(failures: int, lastRecovery: Option<int>)

  /** One tick of the monitor: how the probe goes, what the clock says, how a recovery would go. */
  datatype Tick = Tick(probeOk: bool, now: int, recoverOk: bool)

  function StepOn(cfg: Config, s: State, t: Tick): (State, bool) {
    if t.probeOk then (s.(failures := 0), false)
    else if s.failures + 1 < cfg.failureThreshold then (s.(failures := s.failures + 1), false)
    else if s.lastRecovery.Some? && t.now - s.lastRecovery.value < cfg.cooldown then
      (s.(failures := cfg.failureThreshold), false)
    else if !cfg.recovers then (s.(failures := cfg.failureThreshold), false)
    else if !t.recoverOk then (s.(failures := s.failures + 1), false)
    else (State(0, Some(t.now)), true)
  }

  class Monitor {
    const cfg: Config
    var failures: int
    var lastRecovery: Option<int>

    function Value(): State
      reads this
    {
      State(failures, lastRecovery)
    }

    constructor (cfg: Config)
      ensures this.cfg == Normalize(cfg) && Value() == State(0, None)
    {
      this.cfg, failures, lastRecovery := Normalize(cfg), 0, None;
    }

    method Step(t: Tick) returns (recovered: bool)
      modifies this
      ensures (Value(), recovered) == StepOn(cfg, old(Value()), t)
    {
      if !t.probeOk {
        failures := failures + 1;
        if failures < cfg.failureThreshold {
          return false;
        }
        if lastRecovery.Some? && t.now - lastRecovery.value < cfg.cooldown {
          failures := cfg.failureThreshold;
          return false;
        }
        if !cfg.recovers {
          failures := cfg.failureThreshold;
          return false;
        }
        if !t.recoverOk {
          return false;
        }
        lastRecovery := Some(t.now);
        failures := 0;
        return true;
      }
      failures := 0;
      return false;
    }
  }

  // ---------- what the history says ----------

  /** A recovery is due at the last tick: its probe failed, as did enough probes in a row before it, the cooldown is
      over, and the recovery itself works. */
  predicate Due(cfg: Config, ticks: seq<Tick>)
    requires ticks != []
    decreases |ticks|, 0
  {
    var n := |ticks| - 1;
    && !ticks[n].probeOk && Streak(cfg, ticks[..n]) + 1 >= cfg.failureThreshold
    && (LastRecovery(cfg, ticks[..n]).None? || ticks[n].now - LastRecovery(cfg, ticks[..n]).value >= cfg.cooldown)
    && cfg.recovers && ticks[n].recoverOk
  }

  /** Failed probes in a row since the last good probe or recovery. */
  function Streak(cfg: Config, ticks: seq<Tick>): nat
    decreases |ticks|, 1
  {
    if ticks == [] then 0 else
      var n := |ticks| - 1;
      if ticks[n].probeOk || Due(cfg, ticks) then 0 else Streak(cfg, ticks[..n]) + 1
  }

  /** The time of the latest recovery. */
  function LastRecovery(cfg: Config, ticks: seq<Tick>): Option<int>
    decreases |ticks|, 1
  {
    if ticks == [] then None else
      var n := |ticks| - 1;
      if Due(cfg, ticks) then Some(ticks[n].now) else LastRecovery(cfg, ticks[..n])
  }

  function After(cfg: Config, ticks: seq<Tick>): State {
    if ticks == [] then State(0, None) else
      var n := |ticks| - 1;
      StepOn(cfg, After(cfg, ticks[..n]), ticks[n]).0
  }

  /** Whether the monitor reports a recovery at the last tick. */
  predicate Recovers(cfg: Config, ticks: seq<Tick>)
    requires ticks != []
  {
    StepOn(cfg, After(cfg, ticks[..|ticks| - 1]), ticks[|ticks| - 1]).1
  }

  /** The counter is the streak as far as the threshold can tell. */
  lemma {:induction false} CounterIsStreak(cfg: Config, ticks: seq<Tick>)
    requires cfg.failureThreshold >= 1
    ensures After(cfg, ticks).lastRecovery == LastRecovery(cfg, ticks)
    ensures if Streak(cfg, ticks) < cfg.failureThreshold then After(cfg, ticks).failures == Streak(cfg, ticks)
            else After(cfg, ticks).failures >= cfg.failureThreshold
  {
    if ticks != [] { CounterIsStreak(cfg, ticks[..|ticks| - 1]); }
  }

  /** In every history the monitor recovers exactly when a recovery is due. */
  lemma RecoversExactlyWhenDue(c: Config, ticks: seq<Tick>)
    requires ticks != []
    ensures Recovers(Normalize(c), ticks) <==> Due(Normalize(c), ticks)
  {
    CounterIsStreak(Normalize(c), ticks[..|ticks| - 1]);
  }

  /** A recovery leaves its time, or that of a later one at least a cooldown after it. */
  lemma {:induction false} RecoveryIsRemembered(cfg: Config, ticks: seq<Tick>, i: nat)
    requires cfg.cooldown >= 0 && i < |ticks| && Due(cfg, ticks[..i + 1])
    ensures LastRecovery(cfg, ticks).Some? && LastRecovery(cfg, ticks).value >= ticks[i].now
  {
    var n := |ticks| - 1;
    if i == n {
      assert ticks[..i + 1] == ticks;
    } else {
      assert ticks[..n][..i + 1] == ticks[..i + 1];
      RecoveryIsRemembered(cfg, ticks[..n], i);
    }
  }

  /** Any two recoveries are at least one cooldown apart, whatever the clock does. */
  lemma RecoveriesAreApart(cfg: Config, ticks: seq<Tick>, i: nat, j: nat)
    requires cfg.cooldown >= 0 && i < j < |ticks| && Due(cfg, ticks[..i + 1]) && Due(cfg, ticks[..j + 1])
    ensures ticks[j].now - ticks[i].now >= cfg.cooldown
  {
    assert ticks[..j][..i + 1] == ticks[..i + 1] && ticks[..j + 1][..j] == ticks[..j];
    RecoveryIsRemembered(cfg, ticks[..j], i);
  }

  /** A streak is made of failed probes without a recovery among them. */
  lemma {:induction false} StreakIsFailures(cfg: Config, ticks: seq<Tick>, k: nat)
    requires |ticks| - Streak(cfg, ticks) <= k < |ticks|
    ensures !ticks[k].probeOk && !Due(cfg, ticks[..k + 1])
  {
    var n := |ticks| - 1;
    if k == n {
      assert ticks[..k + 1] == ticks;
    } else {
      assert ticks[..n][..k + 1] == ticks[..k + 1];
      StreakIsFailures(cfg, ticks[..n], k);
    }
  }

  lemma {:induction false} StreakFits(cfg: Config, ticks: seq<Tick>)
    ensures Streak(cfg, ticks) <= |ticks|
  {
    if ticks != [] { StreakFits(cfg, ticks[..|ticks| - 1]); }
  }

  /** Each recovery ends a full threshold of failed probes in a row, with no other recovery among them. */
  lemma RecoveryNeedsAThreshold(c: Config, ticks: seq<Tick>, k: nat)
    requires ticks != [] && Due(Normalize(c), ticks)
    ensures Normalize(c).failureThreshold <= |ticks|
    ensures |ticks| - Normalize(c).failureThreshold <= k < |ticks| ==>
      !ticks[k].probeOk && (k < |ticks| - 1 ==> !Due(Normalize(c), ticks[..k + 1]))
  {
    var cfg, n := Normalize(c), |ticks| - 1;
    StreakFits(cfg, ticks[..n]);
    if |ticks| - cfg.failureThreshold <= k < n {
      StreakIsFailures(cfg, ticks[..n], k);
      assert ticks[..n][..k + 1] == ticks[..k + 1];
    }
  }

  /** The k-th tick failed, and brought no recovery. */
  predicate FailedAt(cfg: Config, ticks: seq<Tick>, k: nat)
    requires k < |ticks|
  {
    !ticks[k].probeOk && !Due(cfg, ticks[..k + 1])
  }

  lemma {:induction false} FailuresMakeAStreak(cfg: Config, ticks: seq<Tick>, m: nat)
    requires m <= |ticks| && forall k :: |ticks| - m <= k < |ticks| ==> FailedAt(cfg, ticks, k)
    ensures Streak(cfg, ticks) >= m
  {
    if m > 0 {
      var n := |ticks| - 1;
      assert FailedAt(cfg, ticks, n) && ticks[..n + 1] == ticks;
      forall k | n - (m - 1) <= k < n ensures FailedAt(cfg, ticks[..n], k) {
        assert FailedAt(cfg, ticks, k) && ticks[..n][..k + 1] == ticks[..k + 1];
      }
      FailuresMakeAStreak(cfg, ticks[..n], m - 1);
    }
  }

  /** The monitor reports a recovery at the k-th tick. */
  predicate RecoveredAt(cfg: Config, ticks: seq<Tick>, k: nat)
    requires k < |ticks|
  {
    Recovers(cfg, ticks[..k + 1])
  }

  lemma RecoveredIsDue(c: Config, ticks: seq<Tick>, k: nat)
    requires k < |ticks|
    ensures RecoveredAt(Normalize(c), ticks, k) <==> Due(Normalize(c), ticks[..k + 1])
  {
    RecoversExactlyWhenDue(c, ticks[..k + 1]);
  }

  /** The last `m` ticks failed, and none of them but the last brought a recovery. */
  ghost predicate FailedInARow(cfg: Config, ticks: seq<Tick>, m: int) {
    && m <= |ticks|
    && (forall k: nat :: |ticks| - m <= k < |ticks| ==> !ticks[k].probeOk)
    && (forall k: nat :: |ticks| - m <= k < |ticks| - 1 ==> !RecoveredAt(cfg, ticks, k))
  }

  /** The tick comes a cooldown after every recovery before it. */
  ghost predicate Cooled(cfg: Config, ticks: seq<Tick>, cooldown: int)
    requires ticks != []
  {
    forall i: nat :: i < |ticks| - 1 && RecoveredAt(cfg, ticks, i) ==>
      ticks[|ticks| - 1].now - ticks[i].now >= cooldown
  }

  lemma RowIsStreak(c: Config, ticks: seq<Tick>)
    requires ticks != [] && FailedInARow(Normalize(c), ticks, Normalize(c).failureThreshold)
    ensures Streak(Normalize(c), ticks[..|ticks| - 1]) + 1 >= Normalize(c).failureThreshold
  {
    var cfg, n := Normalize(c), |ticks| - 1;
    forall k | n - (cfg.failureThreshold - 1) <= k < n ensures FailedAt(cfg, ticks[..n], k) {
      assert ticks[..n][..k + 1] == ticks[..k + 1] && !RecoveredAt(cfg, ticks, k);
      RecoveredIsDue(c, ticks, k);
    }
    FailuresMakeAStreak(cfg, ticks[..n], cfg.failureThreshold - 1);
  }

  lemma StreakIsRow(c: Config, ticks: seq<Tick>)
    requires ticks != [] && !ticks[|ticks| - 1].probeOk
    requires Streak(Normalize(c), ticks[..|ticks| - 1]) + 1 >= Normalize(c).failureThreshold
    ensures FailedInARow(Normalize(c), ticks, Normalize(c).failureThreshold)
  {
    var cfg, n := Normalize(c), |ticks| - 1;
    StreakFits(cfg, ticks[..n]);
    forall k: nat | |ticks| - cfg.failureThreshold <= k < n
      ensures !ticks[k].probeOk && !RecoveredAt(cfg, ticks, k)
    {
      StreakIsFailures(cfg, ticks[..n], k);
      assert ticks[..n][..k + 1] == ticks[..k + 1];
      RecoveredIsDue(c, ticks, k);
    }
  }

  lemma {:induction false} LatestIsARecovery(cfg: Config, ticks: seq<Tick>) returns (i: nat)
    requires LastRecovery(cfg, ticks).Some?
    ensures i < |ticks| && Due(cfg, ticks[..i + 1]) && LastRecovery(cfg, ticks) == Some(ticks[i].now)
  {
    var n := |ticks| - 1;
    if Due(cfg, ticks) {
      i := n;
      assert ticks[..n + 1] == ticks;
    } else {
      i := LatestIsARecovery(cfg, ticks[..n]);
      assert ticks[..n][..i + 1] == ticks[..i + 1];
    }
  }

  lemma CooledIsOver(c: Config, ticks: seq<Tick>)
    requires ticks != []
    ensures var cfg, n := Normalize(c), |ticks| - 1;
      Cooled(cfg, ticks, cfg.cooldown) <==>
      LastRecovery(cfg, ticks[..n]).None? || ticks[n].now - LastRecovery(cfg, ticks[..n]).value >= cfg.cooldown
  {
    var cfg, n := Normalize(c), |ticks| - 1;
    if LastRecovery(cfg, ticks[..n]).Some? {
      var i := LatestIsARecovery(cfg, ticks[..n]);
      assert ticks[..n][..i + 1] == ticks[..i + 1];
      RecoveredIsDue(c, ticks, i);
    }
    forall i: nat | i < n && RecoveredAt(cfg, ticks, i)
      ensures LastRecovery(cfg, ticks[..n]).Some? && LastRecovery(cfg, ticks[..n]).value >= ticks[i].now
    {
      RecoveredIsDue(c, ticks, i);
      assert ticks[..n][..i + 1] == ticks[..i + 1];
      RecoveryIsRemembered(cfg, ticks[..n], i);
    }
  }

  /** In every history, told from the probes and the configured numbers alone: a tick brings a recovery exactly when it
      ends the configured number of failed probes (three, if none is configured) with no recovery among them, comes the
      configured time (five minutes, if under a second) after every earlier recovery, and recovering is configured and
      works. */
  lemma RecoversExactly(c: Config, ticks: seq<Tick>)
    requires ticks != []
    ensures Recovers(Normalize(c), ticks) <==> (
      && FailedInARow(Normalize(c), ticks, if c.failureThreshold < 1 then 3 else c.failureThreshold)
      && Cooled(Normalize(c), ticks, if c.cooldown < 1_000_000_000 then 300_000_000_000 else c.cooldown)
      && c.recovers && ticks[|ticks| - 1].recoverOk)
  {
    var cfg, n := Normalize(c), |ticks| - 1;
    RecoversExactlyWhenDue(c, ticks);
    CooledIsOver(c, ticks);
    if FailedInARow(cfg, ticks, cfg.failureThreshold) { RowIsStreak(c, ticks); }
    if !ticks[n].probeOk && Streak(cfg, ticks[..n]) + 1 >= cfg.failureThreshold { StreakIsRow(c, ticks); }
  }
}
