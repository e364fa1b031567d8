/** The notification rate limiter: it forgets keys whose cooldown is over, and nobody can tell. */
module RateLimiter {
  import opened Joining
  import opened Options

  /** `lastPrune` is None before the first sweep; a missing key was last sent infinitely long ago. */
  datatype State = State(lastSent: map<string, int>, lastPrune: Option<int>)

  const FRESH := State(map[], None)

  function Prune(s: State, cooldown: int, now: int): State {
    if s.lastPrune.Some? && now - s.lastPrune.value < cooldown then s
    else State(map k | k in s.lastSent && now - s.lastSent[k] < cooldown :: s.lastSent[k], Some(now))
  }

  predicate Blocked(lastSent: map<string, int>, cooldown: int, key: string, now: int) {
    key in lastSent && now - lastSent[key] < cooldown
  }

  function AllowNext(s: State, cooldown: int, key: string, now: int): (State, bool) {
    var p := Prune(s, cooldown, now);
    if Blocked(p.lastSent, cooldown, key, now) then (p, false) else (p.(lastSent := p.lastSent[key := now]), true)
  }

  function Key(eventType: string, source: string): string {
    eventType + ":" + source
  }

  class Limiter {
    var lastSent: map<string, int>
    const cooldown: int
    var lastPrune: Option<int>

    function Value(): State
      reads this
    {
      State(lastSent, lastPrune)
    }

    constructor (cooldown: int)
      ensures Value() == FRESH && this.cooldown == cooldown
    {
      this.cooldown, lastSent, lastPrune := cooldown, map[], None;
    }

    method PruneLocked(now: int)
      modifies this
      ensures Value() == Prune(old(Value()), cooldown, now)
    {
      if lastPrune.Some? && now - lastPrune.value < cooldown {
        return;
      }
      lastPrune := Some(now);
      var todo := lastSent.Keys;
      while todo != {}
        invariant todo <= lastSent.Keys <= old(lastSent).Keys && lastPrune == Some(now)
        invariant forall k :: k in lastSent ==> lastSent[k] == old(lastSent)[k]
        invariant forall k :: k in old(lastSent) && k !in todo ==>
          (k in lastSent <==> now - old(lastSent)[k] < cooldown)
        decreases todo
      {
        var k :| k in todo;
        todo := todo - {k};
        if now - lastSent[k] >= cooldown {
          lastSent := lastSent - {k};
        }
      }
    }

    /** `now` is what the clock said before the lock was taken. */
    method Allow(eventType: string, source: string, now: int) returns (allowed: bool)
      modifies this
      ensures (Value(), allowed) == AllowNext(old(Value()), cooldown, Key(eventType, source), now)
    {
      var key := eventType + ":" + source;
      PruneLocked(now);
      if key in lastSent && now - lastSent[key] < cooldown {
        return false;
      }
      lastSent := lastSent[key := now];
      return true;
    }
  }

  // ---------- whole histories ----------

  datatype Call = Call(key: string, now: int)

  function After(calls: seq<Call>, cooldown: int): State {
    if calls == [] then FRESH else
      var n := |calls| - 1;
      AllowNext(After(calls[..n], cooldown), cooldown, calls[n].key, calls[n].now).0
  }

  /** The answer to the i-th call. */
  predicate Allowed(calls: seq<Call>, cooldown: int, i: nat)
    requires i < |calls|
  {
    AllowNext(After(calls[..i], cooldown), cooldown, calls[i].key, calls[i].now).1
  }

  /** The same limiter without any forgetting: the time each key was last let through. */
  function Remembered(calls: seq<Call>, cooldown: int): map<string, int> {
    if calls == [] then map[] else
      var n := |calls| - 1;
      var sent := Remembered(calls[..n], cooldown);
      if Blocked(sent, cooldown, calls[n].key, calls[n].now) then sent else sent[calls[n].key := calls[n].now]
  }

  ghost predicate ClockRises(calls: seq<Call>) {
    forall i, j :: 0 <= i <= j < |calls| ==> calls[i].now <= calls[j].now
  }

  /** What was forgotten is over for good. */
  ghost predicate Refines(s: State, sent: map<string, int>, cooldown: int, now: int) {
    && s.lastSent.Keys <= sent.Keys
    && (forall k :: k in s.lastSent ==> s.lastSent[k] == sent[k])
    && (forall k :: k in sent && k !in s.lastSent ==> now - sent[k] >= cooldown)
  }

  lemma {:induction false} PruningRefines(calls: seq<Call>, cooldown: int, now: int)
    requires ClockRises(calls) && forall i :: 0 <= i < |calls| ==> calls[i].now <= now
    ensures Refines(After(calls, cooldown), Remembered(calls, cooldown), cooldown, now)
  {
    if calls != [] {
      var n := |calls| - 1;
      PruningRefines(calls[..n], cooldown, calls[n].now);
    }
  }

  /** With clock readings in lock order, every answer is the one a limiter that never forgets would give. */
  lemma ForgettingIsInvisible(calls: seq<Call>, cooldown: int, i: nat)
    requires i < |calls| && ClockRises(calls[..i + 1])
    ensures Allowed(calls, cooldown, i) ==
      !Blocked(Remembered(calls[..i], cooldown), cooldown, calls[i].key, calls[i].now)
  {
    assert calls[..i + 1][i] == calls[i];
    forall j | 0 <= j < i ensures calls[..i][j].now <= calls[i].now { assert calls[..i + 1][j] == calls[j]; }
    assert ClockRises(calls[..i]) by {
      forall a, b | 0 <= a <= b < i ensures calls[..i][a].now <= calls[..i][b].now {
        assert calls[..i + 1][a] == calls[a] && calls[..i + 1][b] == calls[b];
      }
    }
    PruningRefines(calls[..i], cooldown, calls[i].now);
  }

  // ---------- when an answer comes too early ----------

  /** The i-th call is the last one before the j-th that was let through for its key. */
  ghost predicate LastAllowed(calls: seq<Call>, cooldown: int, i: nat, j: nat)
    requires j <= |calls|
  {
    && i < j && Allowed(calls, cooldown, i)
    && forall m :: i < m < j && calls[m].key == calls[i].key ==> !Allowed(calls, cooldown, m)
  }

  /** The m-th call really sweeps: a cooldown has gone by since the last sweep. */
  predicate Sweeps(calls: seq<Call>, cooldown: int, m: nat)
    requires m < |calls|
  {
    var last := After(calls[..m], cooldown).lastPrune;
    last.None? || calls[m].now - last.value >= cooldown
  }

  /** The j-th call sweeps, and finds the cooldown of the i-th over. */
  predicate SweptAt(calls: seq<Call>, cooldown: int, i: nat, j: nat)
    requires i < |calls| && j < |calls|
  {
    Sweeps(calls, cooldown, j) && calls[j].now - calls[i].now >= cooldown
  }

  /** A sweep between the two calls finds the cooldown of the i-th over. */
  ghost predicate SweptBetween(calls: seq<Call>, cooldown: int, i: nat, j: nat)
    requires i < |calls| && j <= |calls|
  {
    exists m :: i < m < j && SweptAt(calls, cooldown, i, m)
  }

  lemma AfterNext(calls: seq<Call>, cooldown: int, j: nat)
    requires j < |calls|
    ensures After(calls[..j + 1], cooldown) ==
      AllowNext(After(calls[..j], cooldown), cooldown, calls[j].key, calls[j].now).0
  {
    assert calls[..j + 1][..j] == calls[..j];
  }

  lemma SweptByThen(calls: seq<Call>, cooldown: int, i: nat, j: nat)
    requires i < j < |calls|
    ensures SweptBetween(calls, cooldown, i, j + 1) ==
      (SweptBetween(calls, cooldown, i, j) || SweptAt(calls, cooldown, i, j))
  {
  }

  /** What the sweep of the j-th call does to a key last let through by the i-th. */
  lemma SweepOfOne(calls: seq<Call>, cooldown: int, i: nat, j: nat)
    requires i < j < |calls|
    requires var sent := After(calls[..j], cooldown).lastSent;
      calls[i].key in sent ==> sent[calls[i].key] == calls[i].now
    ensures var sent := After(calls[..j], cooldown).lastSent;
      var kept := Prune(After(calls[..j], cooldown), cooldown, calls[j].now).lastSent;
      && (calls[i].key in kept <==> calls[i].key in sent && !SweptAt(calls, cooldown, i, j))
      && (calls[i].key in kept ==> kept[calls[i].key] == calls[i].now)
  {
  }

  /** A call that is refused or for another key only sweeps this one. */
  lemma OnlySwept(calls: seq<Call>, cooldown: int, key: string, j: nat)
    requires j < |calls| && (calls[j].key == key ==> !Allowed(calls, cooldown, j))
    ensures var kept := Prune(After(calls[..j], cooldown), cooldown, calls[j].now).lastSent;
      var sent := After(calls[..j + 1], cooldown).lastSent;
      (key in sent <==> key in kept) && (key in sent ==> sent[key] == kept[key])
  {
    AfterNext(calls, cooldown, j);
  }

  lemma JustSent(calls: seq<Call>, cooldown: int, i: nat)
    requires i < |calls| && Allowed(calls, cooldown, i)
    ensures var sent := After(calls[..i + 1], cooldown).lastSent;
      calls[i].key in sent && sent[calls[i].key] == calls[i].now
  {
    AfterNext(calls, cooldown, i);
  }

  /** A key let through stays known with that time until a sweep finds its cooldown over. */
  lemma {:induction false} KnownUntilSwept(calls: seq<Call>, cooldown: int, i: nat, j: nat)
    requires j <= |calls| && LastAllowed(calls, cooldown, i, j)
    ensures var sent := After(calls[..j], cooldown).lastSent;
      && (calls[i].key in sent <==> !SweptBetween(calls, cooldown, i, j))
      && (calls[i].key in sent ==> sent[calls[i].key] == calls[i].now)
    decreases j
  {
    var n := j - 1;
    if i == n {
      JustSent(calls, cooldown, i);
    } else {
      KnownUntilSwept(calls, cooldown, i, n);
      SweptByThen(calls, cooldown, i, n);
      SweepOfOne(calls, cooldown, i, n);
      OnlySwept(calls, cooldown, calls[i].key, n);
    }
  }

  /** Whatever the clock readings, a call after one let through for the same key is let through exactly when the
      cooldown has gone by since, or a sweep in between, at another reading, found that it had. */
  lemma AllowedExactly(calls: seq<Call>, cooldown: int, i: nat, j: nat)
    requires j < |calls| && LastAllowed(calls, cooldown, i, j) && calls[i].key == calls[j].key
    ensures Allowed(calls, cooldown, j) <==>
      calls[j].now - calls[i].now >= cooldown || SweptBetween(calls, cooldown, i, j)
  {
    KnownUntilSwept(calls, cooldown, i, j);
    SweepOfOne(calls, cooldown, i, j);
  }

  /** A key that was never let through is unknown, and its next call is let through. */
  lemma {:induction false} FirstIsAllowed(calls: seq<Call>, cooldown: int, j: nat)
    requires j < |calls|
    requires forall i :: 0 <= i < j && calls[i].key == calls[j].key ==> !Allowed(calls, cooldown, i)
    ensures Allowed(calls, cooldown, j)
  {
    NeverSent(calls, cooldown, calls[j].key, j);
  }

  lemma {:induction false} NeverSent(calls: seq<Call>, cooldown: int, key: string, j: nat)
    requires j <= |calls| && forall i :: 0 <= i < j && calls[i].key == key ==> !Allowed(calls, cooldown, i)
    ensures key !in After(calls[..j], cooldown).lastSent
    decreases j
  {
    if j > 0 {
      NeverSent(calls, cooldown, key, j - 1);
      AfterNext(calls, cooldown, j - 1);
    }
  }

  /** Two calls let through in a row for one key are too close exactly when a sweep between them had a reading the
      cooldown after the first, ahead of the reading of the second. */
  lemma TooCloseExactly(calls: seq<Call>, cooldown: int, i: nat, j: nat)
    requires j < |calls| && LastAllowed(calls, cooldown, i, j) && calls[i].key == calls[j].key
    ensures (Allowed(calls, cooldown, j) && calls[j].now - calls[i].now < cooldown) == SweptAhead(calls, cooldown, i, j)
  {
    AllowedExactly(calls, cooldown, i, j);
    if SweptBetween(calls, cooldown, i, j) && calls[j].now - calls[i].now < cooldown {
      var m :| i < m < j && SweptAt(calls, cooldown, i, m);
      assert calls[j].now < calls[i].now + cooldown <= calls[m].now;
    }
    if SweptAhead(calls, cooldown, i, j) {
      var m :| i < m < j && Sweeps(calls, cooldown, m) && calls[j].now < calls[i].now + cooldown <= calls[m].now;
      assert SweptAt(calls, cooldown, i, m);
    }
  }

  ghost predicate SweptAhead(calls: seq<Call>, cooldown: int, i: nat, j: nat)
    requires i < j < |calls|
  {
    exists m :: i < m < j && Sweeps(calls, cooldown, m) && calls[j].now < calls[i].now + cooldown <= calls[m].now
  }

  lemma StillLast(calls: seq<Call>, cooldown: int, k: nat, j: nat)
    requires k < j < |calls| && LastAllowed(calls, cooldown, k, j)
    requires calls[j].key == calls[k].key ==> !Allowed(calls, cooldown, j)
    ensures LastAllowed(calls, cooldown, k, j + 1)
  {}

  lemma {:induction false} LastOf(calls: seq<Call>, cooldown: int, i: nat, j: nat) returns (k: nat)
    requires i < j <= |calls| && Allowed(calls, cooldown, i)
    ensures i <= k && LastAllowed(calls, cooldown, k, j) && calls[k].key == calls[i].key
    decreases j
  {
    if j == i + 1 {
      k := i;
    } else if calls[j - 1].key == calls[i].key && Allowed(calls, cooldown, j - 1) {
      k := j - 1;
    } else {
      k := LastOf(calls, cooldown, i, j - 1);
      StillLast(calls, cooldown, k, j - 1);
    }
  }

  /** So with clock readings in lock order two calls let through for one key are at least one cooldown apart. */
  lemma AllowedAreApart(calls: seq<Call>, cooldown: int, i: nat, j: nat)
    requires i < j < |calls| && calls[i].key == calls[j].key && ClockRises(calls[..j + 1])
    requires Allowed(calls, cooldown, i) && Allowed(calls, cooldown, j)
    ensures calls[j].now - calls[i].now >= cooldown
  {
    var k := LastOf(calls, cooldown, i, j);
    AllowedExactly(calls, cooldown, k, j);
    assert forall m :: 0 <= m <= j ==> calls[..j + 1][m] == calls[m];
  }

  /** The clock is read before the lock is taken. When the lock goes round in another order than the readings, a
      sweep by a later reading makes an earlier one forget, and two calls pass closer than the cooldown. */
  lemma ReadingsOutOfLockOrder()
    ensures var calls := [Call("a", 0), Call("b", 5), Call("a", 4)];
      Allowed(calls, 5, 0) && Allowed(calls, 5, 2)
      && Blocked(Remembered(calls[..2], 5), 5, calls[2].key, calls[2].now)
  {
    var calls := [Call("a", 0), Call("b", 5), Call("a", 4)];
    assert calls[..0] == [] && calls[..1] == [Call("a", 0)] && calls[..2] == [Call("a", 0), Call("b", 5)];
    assert calls[..1][..0] == [] && calls[..2][..1] == calls[..1];
    assert After(calls[..1], 5) == State(map["a" := 0], Some(0));
    assert After(calls[..2], 5) == State(map["b" := 5], Some(5));
    assert Remembered(calls[..1], 5) == map["a" := 0];
    assert Remembered(calls[..2], 5) == map["a" := 0, "b" := 5];
  }

  // ---------- whole histories of events ----------

  /** One event as it is offered to the limiter. */
  datatype Event = Event(eventType: string, source: string, now: int)

  function CallsOf(events: seq<Event>): (calls: seq<Call>)
    ensures |calls| == |events|
  {
    seq(|events|, i requires 0 <= i < |events| => Call(Key(events[i].eventType, events[i].source), events[i].now))
  }

  predicate SameKind(e: Event, f: Event) {
    e.eventType == f.eventType && e.source == f.source
  }

  /** Event types hold no colon, so events share a key exactly when they are of one type and from one source. */
  lemma KeysTellApart(e: Event, f: Event)
    requires ':' !in e.eventType && ':' !in f.eventType
    ensures Key(e.eventType, e.source) == Key(f.eventType, f.source) <==> SameKind(e, f)
  {
    if Key(e.eventType, e.source) == Key(f.eventType, f.source) {
      CutOnce(e.eventType, e.source, f.eventType, f.source, ':');
    }
  }

  /** An event of which none of the same type and source was let through before is let through, whatever else was
      sent. */
  lemma FirstOfItsKindIsAllowed(events: seq<Event>, cooldown: int, j: nat)
    requires j < |events| && forall i :: 0 <= i <= j ==> ':' !in events[i].eventType
    requires forall i :: 0 <= i < j && SameKind(events[i], events[j]) ==> !Allowed(CallsOf(events), cooldown, i)
    ensures Allowed(CallsOf(events), cooldown, j)
  {
    var calls := CallsOf(events);
    forall i | 0 <= i < j && calls[i].key == calls[j].key ensures !Allowed(calls, cooldown, i) {
      KeysTellApart(events[i], events[j]);
    }
    FirstIsAllowed(calls, cooldown, j);
  }

  /** With clock readings in lock order, two events of one type and source that are both let through are a cooldown
      apart. */
  lemma EventsAreApart(events: seq<Event>, cooldown: int, i: nat, j: nat)
    requires i < j < |events| && SameKind(events[i], events[j]) && ClockRises(CallsOf(events)[..j + 1])
    requires Allowed(CallsOf(events), cooldown, i) && Allowed(CallsOf(events), cooldown, j)
    ensures events[j].now - events[i].now >= cooldown
  {
    AllowedAreApart(CallsOf(events), cooldown, i, j);
  }
}
