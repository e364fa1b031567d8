/** What every run of the event bus keeps: order, conservation and bounds of events, and a clean lifecycle. */
module EventBusSafety {
  import opened EventBus

  predicate Rising(t: seq<nat>) {
    forall i, j :: 0 <= i < j < |t| ==> t[i] < t[j]
  }

  // ---------- publications ----------

  function InHand(s: State): seq<nat> {
    if s.dispatcher.Holding? then [s.dispatcher.e] else []
  }

  /** Nothing accepted is lost, repeated or reordered on its way to the fan-out. */
  ghost predicate Conserved(s: State) {
    && s.accepted == s.fanned + InHand(s) + s.ch
    && Rising(s.accepted)
    && (forall i :: 0 <= i < |s.accepted| ==> s.accepted[i] < s.published)
    && 0 < s.capacity && |s.ch| <= s.capacity
    && (s.dispatcher.Fanning? ==> |s.fanned| > 0 && s.fanned[|s.fanned| - 1] == s.dispatcher.e)
  }

  /** Everything but a publication and the dispatcher's own steps leaves the stream of events alone. */
  lemma OtherStepKeepsStream(s: State, e: Event)
    requires Possible(s, e) && !e.Publish? && !e.Receive? && !e.ReadLock?
    ensures var t := Step(s, e);
      && t.accepted == s.accepted && t.fanned == s.fanned && t.ch == s.ch && InHand(t) == InHand(s)
      && t.published == s.published && t.capacity == s.capacity
      && (t.dispatcher.Fanning? ==> s.dispatcher.Fanning? && t.dispatcher.e == s.dispatcher.e)
  {}

  lemma PublishKeepsConserved(s: State)
    requires Conserved(s) && Possible(s, Publish)
    ensures Conserved(Step(s, Publish))
  {
    if |s.ch| < s.capacity {
      assert s.accepted + [s.published] == s.fanned + InHand(s) + (s.ch + [s.published]);
    }
  }

  lemma ReceiveKeepsConserved(s: State)
    requires Conserved(s) && Possible(s, Receive)
    ensures Conserved(Step(s, Receive))
  {
    assert s.ch == [s.ch[0]] + s.ch[1..];
  }

  lemma ReadLockKeepsConserved(s: State)
    requires Conserved(s) && Possible(s, ReadLock)
    ensures Conserved(Step(s, ReadLock))
  {
  }

  lemma StepKeepsConserved(s: State, e: Event)
    requires Conserved(s) && Possible(s, e)
    ensures Conserved(Step(s, e))
  {
    if e.Publish? {
      PublishKeepsConserved(s);
    } else if e.Receive? {
      ReceiveKeepsConserved(s);
    } else if e.ReadLock? {
      ReadLockKeepsConserved(s);
    } else {
      OtherStepKeepsStream(s, e);
    }
  }

  // ---------- what one subscriber sees ----------

  /** The events it was offered: a stretch of the fan-out, starting where it subscribed. */
  function Window(fanned: seq<nat>, sub: Subscriber): seq<nat>
    requires sub.since + sub.offers <= |fanned|
  {
    fanned[sub.since..sub.since + sub.offers]
  }

  /** Delivered events and the queue behind them. */
  function Trail(sub: Subscriber): seq<nat> {
    sub.delivered + sub.queue
  }

  ghost predicate TrailFits(fanned: seq<nat>, sub: Subscriber) {
    && sub.since + sub.offers <= |fanned|
    && |sub.queue| <= SUBSCRIBER_QUEUE_SIZE
    && Rising(Trail(sub))
    && (forall x :: x in Trail(sub) ==> x in Window(fanned, sub))
    && |Trail(sub)| + sub.missed == sub.offers
    && (sub.missed == 0 ==> Trail(sub) == Window(fanned, sub))
  }

  ghost predicate TrailsFit(s: State) {
    forall k :: 0 <= k < |s.table| ==> TrailFits(s.fanned, s.table[k])
  }

  lemma FannedRises(s: State)
    requires Conserved(s)
    ensures Rising(s.fanned)
  {
    forall i, j | 0 <= i < j < |s.fanned| ensures s.fanned[i] < s.fanned[j] {
      assert s.accepted[i] == s.fanned[i] && s.accepted[j] == s.fanned[j];
    }
  }

  lemma LongerFanOutFits(fanned: seq<nat>, e: nat, sub: Subscriber)
    requires TrailFits(fanned, sub)
    ensures TrailFits(fanned + [e], sub)
  {
    assert Window(fanned + [e], sub) == Window(fanned, sub);
  }

  lemma WindowGrows(fanned: seq<nat>, e: nat, sub: Subscriber)
    requires Rising(fanned) && fanned != [] && fanned[|fanned| - 1] == e && sub.since + sub.offers + 1 == |fanned|
    ensures Window(fanned, Offered(sub, e)) == Window(fanned, sub) + [e]
    ensures forall x :: x in Window(fanned, sub) ==> x < e
  {
    var before := Window(fanned, sub);
    forall x | x in before ensures x < e {
      var m := PositionOf(before, x);
      assert fanned[sub.since + m] == x;
    }
  }

  lemma RisingMore(t: seq<nat>, e: nat)
    requires Rising(t) && forall x :: x in t ==> x < e
    ensures Rising(t + [e])
  {
    assert forall i :: 0 <= i < |t| ==> t[i] in t;
  }

  /** An offer that reaches the newest fan-out keeps the trail a subsequence of what was offered. */
  lemma OfferFits(fanned: seq<nat>, e: nat, sub: Subscriber)
    requires TrailFits(fanned, sub) && Rising(fanned)
    requires fanned != [] && fanned[|fanned| - 1] == e && sub.since + sub.offers + 1 == |fanned|
    ensures TrailFits(fanned, Offered(sub, e))
    ensures Trail(sub) <= Trail(Offered(sub, e))
  {
    WindowGrows(fanned, e, sub);
    if |sub.queue| < SUBSCRIBER_QUEUE_SIZE {
      assert Trail(Offered(sub, e)) == Trail(sub) + [e];
      RisingMore(Trail(sub), e);
    }
  }

  lemma TakeFits(fanned: seq<nat>, sub: Subscriber)
    requires TrailFits(fanned, sub) && sub.queue != []
    ensures TrailFits(fanned, Taken(sub)) && Trail(Taken(sub)) == Trail(sub)
  {
    assert Trail(Taken(sub)) == Trail(sub);
    assert Window(fanned, Taken(sub)) == Window(fanned, sub);
  }

  // ---------- the roster ----------

  /** The fan-out in progress has not yet come to position `j`. */
  function Owed(s: State, j: nat): nat {
    if s.dispatcher.Fanning? && s.dispatcher.next <= j then 1 else 0
  }

  ghost predicate Distinct(subs: seq<nat>) {
    forall i, j :: 0 <= i < j < |subs| ==> subs[i] != subs[j]
  }

  ghost predicate DistinctIds(s: State)
    requires WellIndexed(s)
  {
    forall i, j :: 0 <= i < j < |s.subs| ==> s.table[s.subs[i]].id != s.table[s.subs[j]].id
  }

  /** A registered subscriber was offered every event fanned out since it subscribed. */
  ghost predicate UpToDate(s: State)
    requires WellIndexed(s)
  {
    forall j :: 0 <= j < |s.subs| ==> s.table[s.subs[j]].since + s.table[s.subs[j]].offers + Owed(s, j) == |s.fanned|
  }

  /** A quit channel is open exactly while its subscriber is registered, and never closed twice. */
  ghost predicate QuitsExact(s: State) {
    forall k :: 0 <= k < |s.table| ==> s.table[k].quits == if k in s.subs then 0 else 1
  }

  ghost predicate Roster(s: State) {
    WellIndexed(s) && Distinct(s.subs) && DistinctIds(s) && UpToDate(s) && QuitsExact(s)
  }

  lemma CutMembers(subs: seq<nat>, j: nat, k: nat)
    requires Distinct(subs) && j < |subs|
    ensures Distinct(subs[..j] + subs[j + 1..])
    ensures k in subs[..j] + subs[j + 1..] <==> k in subs && k != subs[j]
  {
    var cut := subs[..j] + subs[j + 1..];
    if k in subs && k != subs[j] {
      var i := PositionOf(subs, k);
      assert cut[if i < j then i else i - 1] == k;
    }
  }

  /** Dropping closes the one quit channel it takes off the list. */
  lemma DropKeepsQuits(s: State, id: string)
    requires Roster(s)
    ensures Distinct(Drop(s, id).subs) && QuitsExact(Drop(s, id))
  {
    var j := Find(s, id, 0);
    if j < |s.subs| {
      var t := Drop(s, id);
      CutMembers(s.subs, j, 0);
      forall k | 0 <= k < |t.table| ensures t.table[k].quits == if k in t.subs then 0 else 1 {
        CutMembers(s.subs, j, k);
      }
    }
  }

  /** What is left of the roster, and that nobody is left with that id. */
  lemma DropLeaves(s: State, id: string, i: nat)
    requires Roster(s) && Find(s, id, 0) < |s.subs| && i < |s.subs| - 1
    ensures var j := Find(s, id, 0);
      var m := s.subs[if i < j then i else i + 1];
      Drop(s, id).subs[i] == m && Drop(s, id).table[m] == s.table[m] && s.table[m].id != id
  {
    var j := Find(s, id, 0);
    var i0 := if i < j then i else i + 1;
    assert s.subs[i0] != s.subs[j];
    assert s.table[s.subs[i0]].id != s.table[s.subs[j]].id;
  }

  /** Position `i` of the shortened list, in the old one. */
  function OldPosition(j: nat, i: nat): nat {
    if i < j then i else i + 1
  }

  /** A shortened list holds the ids of the old one, so they stay distinct. */
  lemma ShortenedIds(s: State, t: State, j: nat)
    requires WellIndexed(s) && DistinctIds(s) && WellIndexed(t) && |t.subs| + 1 == |s.subs|
    requires forall i :: 0 <= i < |t.subs| ==> t.table[t.subs[i]].id == s.table[s.subs[OldPosition(j, i)]].id
    ensures DistinctIds(t)
  {
  }

  lemma DropKeepsIds(s: State, id: string)
    requires Roster(s)
    ensures WellIndexed(Drop(s, id)) && DistinctIds(Drop(s, id))
    ensures forall i :: 0 <= i < |Drop(s, id).subs| ==> Drop(s, id).table[Drop(s, id).subs[i]].id != id
  {
    var j, t := Find(s, id, 0), Drop(s, id);
    if j < |s.subs| {
      assert |t.subs| + 1 == |s.subs|;
      forall i | 0 <= i < |t.subs|
        ensures t.subs[i] < |t.table| && t.table[t.subs[i]].id == s.table[s.subs[OldPosition(j, i)]].id != id
      {
        DropLeaves(s, id, i);
      }
      ShortenedIds(s, t, j);
    }
  }

  lemma DropKeepsUpToDate(s: State, id: string)
    requires Roster(s) && !s.dispatcher.Fanning? && WellIndexed(Drop(s, id))
    ensures UpToDate(Drop(s, id))
  {
    var j, t := Find(s, id, 0), Drop(s, id);
    if j < |s.subs| {
      forall i | 0 <= i < |t.subs| ensures t.table[t.subs[i]] == s.table[s.subs[OldPosition(j, i)]] {
        DropLeaves(s, id, i);
      }
    }
  }

  lemma DropKeepsRoster(s: State, id: string)
    requires Roster(s) && !s.dispatcher.Fanning?
    ensures Roster(Drop(s, id))
    ensures forall i :: 0 <= i < |Drop(s, id).subs| ==> Drop(s, id).table[Drop(s, id).subs[i]].id != id
  {
    DropKeepsQuits(s, id);
    DropKeepsIds(s, id);
    DropKeepsUpToDate(s, id);
  }

  lemma EnrollKeepsRoster(s: State, id: string)
    requires Roster(s) && !s.dispatcher.Fanning?
    requires forall j :: 0 <= j < |s.subs| ==> s.table[s.subs[j]].id != id
    ensures Roster(Enroll(s, id))
  {
    var t := Enroll(s, id);
    forall j | 0 <= j < |s.subs| ensures t.subs[j] == s.subs[j] && t.table[t.subs[j]] == s.table[s.subs[j]] {}
    assert t.subs[|s.subs|] == |s.table|;
  }

  lemma PutKeepsRoster(s: State, k: nat, sub: Subscriber)
    requires Roster(s) && k < |s.table|
    requires sub.id == s.table[k].id && sub.quits == s.table[k].quits
    requires sub.since == s.table[k].since && sub.offers == s.table[k].offers
    ensures Roster(Put(s, k, sub))
  {}

  lemma OfferKeepsRoster(s: State)
    requires Roster(s) && Possible(s, Offer)
    ensures Roster(Step(s, Offer))
  {
    var t := Step(s, Offer);
    var n := s.dispatcher.next;
    forall j | 0 <= j < |t.subs|
      ensures t.table[t.subs[j]].since + t.table[t.subs[j]].offers + Owed(t, j) == |t.fanned|
    {
      if j != n { assert t.subs[j] != t.subs[n]; }
    }
  }

  lemma SubscribeKeepsRoster(s: State, id: string)
    requires Roster(s) && Possible(s, Event.Subscribe(id))
    ensures Roster(Step(s, Event.Subscribe(id)))
  {
    if !s.stopped {
      DropKeepsRoster(s, id);
      EnrollKeepsRoster(Drop(s, id), id);
    }
  }

  /** The steps of a worker. */
  lemma WorkerKeepsRoster(s: State, e: Event)
    requires Roster(s) && Possible(s, e) && (e.Take? || e.Handled? || e.WorkerExit?)
    ensures Roster(Step(s, e))
  {
    match e
    case Take(k) => PutKeepsRoster(s, k, Taken(s.table[k]));
    case Handled(k) => PutKeepsRoster(s, k, s.table[k].(worker := Waiting));
    case WorkerExit(k) => PutKeepsRoster(s, k, s.table[k].(worker := Exited));
  }

  /** The steps that leave the list of subscribers and the subscribers alone. */
  predicate Elsewhere(e: Event) {
    || e.Publish? || e.Receive? || e.ReadLock? || e.ReadUnlock? || e.DispatcherExit?
    || e.SetStopped? || e.CloseDone? || e.WaitReturn?
  }

  lemma ElsewhereKeepsRoster(s: State, e: Event)
    requires Roster(s) && Possible(s, e) && Elsewhere(e)
    ensures Roster(Step(s, e))
  {
    var t := Step(s, e);
    assert t.table == s.table && t.subs == s.subs;
    forall j | 0 <= j < |t.subs|
      ensures t.table[t.subs[j]].since + t.table[t.subs[j]].offers + Owed(t, j) == |t.fanned|
    {
      assert s.table[s.subs[j]].since + s.table[s.subs[j]].offers + Owed(s, j) == |s.fanned|;
    }
  }

  lemma StepKeepsRoster(s: State, e: Event)
    requires Roster(s) && Possible(s, e)
    ensures Roster(Step(s, e))
  {
    if e.Subscribe? {
      SubscribeKeepsRoster(s, e.id);
    } else if e.Unsubscribe? {
      DropKeepsRoster(s, e.id);
    } else if e.Offer? {
      OfferKeepsRoster(s);
    } else if Elsewhere(e) {
      ElsewhereKeepsRoster(s, e);
    } else {
      WorkerKeepsRoster(s, e);
    }
  }

  // ---------- trails over a step ----------

  lemma QuitKeepsFit(fanned: seq<nat>, sub: Subscriber, quits: nat)
    requires TrailFits(fanned, sub)
    ensures TrailFits(fanned, sub.(quits := quits))
  {
    assert Trail(sub.(quits := quits)) == Trail(sub);
    assert Window(fanned, sub.(quits := quits)) == Window(fanned, sub);
  }

  lemma DropKeepsTrails(s: State, id: string)
    requires WellIndexed(s) && TrailsFit(s)
    ensures TrailsFit(Drop(s, id))
  {
    var j := Find(s, id, 0);
    if j < |s.subs| {
      var k := s.subs[j];
      QuitKeepsFit(s.fanned, s.table[k], s.table[k].quits + 1);
    }
  }

  lemma PutKeepsTrails(s: State, k: nat, sub: Subscriber)
    requires TrailsFit(s) && k < |s.table| && TrailFits(s.fanned, sub)
    ensures TrailsFit(Put(s, k, sub))
  {}

  lemma WorkerKeepsFit(fanned: seq<nat>, sub: Subscriber, w: Worker)
    requires TrailFits(fanned, sub)
    ensures TrailFits(fanned, sub.(worker := w))
  {
    assert Trail(sub.(worker := w)) == Trail(sub);
    assert Window(fanned, sub.(worker := w)) == Window(fanned, sub);
  }

  lemma EnrollKeepsTrails(s: State, id: string)
    requires TrailsFit(s)
    ensures TrailsFit(Enroll(s, id))
  {
    var n := Newcomer(id, |s.fanned|);
    assert Trail(n) == [] && Window(s.fanned, n) == [];
  }

  lemma SubscribeKeepsTrails(s: State, id: string)
    requires TrailsFit(s) && Possible(s, Event.Subscribe(id))
    ensures TrailsFit(Step(s, Event.Subscribe(id)))
  {
    if !s.stopped {
      DropKeepsTrails(s, id);
      EnrollKeepsTrails(Drop(s, id), id);
    }
  }

  lemma ReadLockKeepsTrails(s: State)
    requires TrailsFit(s) && Possible(s, ReadLock)
    ensures TrailsFit(Step(s, ReadLock))
  {
    forall k | 0 <= k < |s.table| ensures TrailFits(s.fanned + [s.dispatcher.e], s.table[k]) {
      LongerFanOutFits(s.fanned, s.dispatcher.e, s.table[k]);
    }
  }

  lemma OfferKeepsTrails(s: State)
    requires Conserved(s) && Roster(s) && TrailsFit(s) && Possible(s, Offer)
    ensures TrailsFit(Step(s, Offer))
  {
    var k := s.subs[s.dispatcher.next];
    FannedRises(s);
    OfferFits(s.fanned, s.dispatcher.e, s.table[k]);
    PutKeepsTrails(s, k, Offered(s.table[k], s.dispatcher.e));
  }

  lemma WorkerKeepsTrails(s: State, e: Event)
    requires TrailsFit(s) && Possible(s, e) && (e.Take? || e.Handled? || e.WorkerExit?)
    ensures TrailsFit(Step(s, e))
  {
    match e
    case Take(k) =>
      TakeFits(s.fanned, s.table[k]);
      PutKeepsTrails(s, k, Taken(s.table[k]));
    case Handled(k) =>
      WorkerKeepsFit(s.fanned, s.table[k], Waiting);
      PutKeepsTrails(s, k, s.table[k].(worker := Waiting));
    case WorkerExit(k) =>
      WorkerKeepsFit(s.fanned, s.table[k], Exited);
      PutKeepsTrails(s, k, s.table[k].(worker := Exited));
  }

  lemma StepKeepsTrails(s: State, e: Event)
    requires Conserved(s) && Roster(s) && TrailsFit(s) && Possible(s, e)
    ensures TrailsFit(Step(s, e))
  {
    if e.Subscribe? {
      SubscribeKeepsTrails(s, e.id);
    } else if e.Unsubscribe? {
      DropKeepsTrails(s, e.id);
    } else if e.ReadLock? {
      ReadLockKeepsTrails(s);
    } else if e.Offer? {
      OfferKeepsTrails(s);
    } else if Elsewhere(e) {
      assert Step(s, e).table == s.table && Step(s, e).fanned == s.fanned;
    } else {
      WorkerKeepsTrails(s, e);
    }
  }

  // ---------- goroutines and shutdown ----------

  function Alive(w: Worker): nat {
    if w.Exited? then 0 else 1
  }

  function LiveWorkers(table: seq<Subscriber>): nat {
    if table == [] then 0 else LiveWorkers(table[..|table| - 1]) + Alive(table[|table| - 1].worker)
  }

  lemma {:induction false} LiveAfterUpdate(table: seq<Subscriber>, k: nat, sub: Subscriber)
    requires k < |table|
    ensures LiveWorkers(table[k := sub]) == LiveWorkers(table) - Alive(table[k].worker) + Alive(sub.worker)
  {
    var n := |table| - 1;
    if k < n {
      LiveAfterUpdate(table[..n], k, sub);
      assert table[k := sub][..n] == table[..n][k := sub];
    } else {
      assert table[k := sub][..n] == table[..n];
    }
  }

  lemma LiveAfterAppend(table: seq<Subscriber>, sub: Subscriber)
    ensures LiveWorkers(table + [sub]) == LiveWorkers(table) + Alive(sub.worker)
  {
    assert (table + [sub])[..|table|] == table;
  }

  lemma {:induction false} NoneLive(table: seq<Subscriber>, k: nat)
    requires k < |table| && LiveWorkers(table) == 0
    ensures table[k].worker == Exited
  {
    if k < |table| - 1 { NoneLive(table[..|table| - 1], k); }
  }

  ghost predicate Lifecycle(s: State) {
    && s.wg == LiveWorkers(s.table) + (if s.dispatcher.Gone? then 0 else 1)
    && s.doneCloses == (if s.stopper.Closed? || s.stopper.Returned? then 1 else 0)
    && (s.stopped <==> !s.stopper.NotCalled?)
    && (s.stopper.Returned? ==> s.wg == 0)
    && (s.dispatcher.Gone? ==> s.doneCloses > 0)
    && (forall k :: 0 <= k < |s.table| && s.table[k].worker.Exited? ==> s.table[k].quits > 0 || s.doneCloses > 0)
  }

  lemma DropKeepsLifecycle(s: State, id: string)
    requires WellIndexed(s) && Lifecycle(s)
    ensures Lifecycle(Drop(s, id))
  {
    var j := Find(s, id, 0);
    if j < |s.subs| {
      var k := s.subs[j];
      LiveAfterUpdate(s.table, k, s.table[k].(quits := s.table[k].quits + 1));
    }
  }

  /** A step of one subscriber that starts or ends no goroutine. */
  lemma PutKeepsLifecycle(s: State, k: nat, sub: Subscriber)
    requires Lifecycle(s) && k < |s.table|
    requires !sub.worker.Exited? && !s.table[k].worker.Exited?
    ensures Lifecycle(Put(s, k, sub))
  {
    LiveAfterUpdate(s.table, k, sub);
  }

  lemma OfferKeepsLifecycle(s: State)
    requires Lifecycle(s) && Possible(s, Offer)
    ensures Lifecycle(Step(s, Offer))
  {
    var k := s.subs[s.dispatcher.next];
    LiveAfterUpdate(s.table, k, Offered(s.table[k], s.dispatcher.e));
  }

  lemma SubscribeKeepsLifecycle(s: State, id: string)
    requires Lifecycle(s) && Possible(s, Event.Subscribe(id))
    ensures Lifecycle(Step(s, Event.Subscribe(id)))
  {
    if !s.stopped {
      DropKeepsLifecycle(s, id);
      EnrollKeepsLifecycle(Drop(s, id), id);
    }
  }

  lemma EnrollKeepsLifecycle(s: State, id: string)
    requires Lifecycle(s) && !s.stopped
    ensures Lifecycle(Enroll(s, id))
  {
    LiveAfterAppend(s.table, Newcomer(id, |s.fanned|));
  }

  lemma WorkerKeepsLifecycle(s: State, e: Event)
    requires Lifecycle(s) && Possible(s, e) && (e.Take? || e.Handled? || e.WorkerExit?)
    ensures Lifecycle(Step(s, e))
  {
    match e
    case Take(k) => PutKeepsLifecycle(s, k, Taken(s.table[k]));
    case Handled(k) => PutKeepsLifecycle(s, k, s.table[k].(worker := Waiting));
    case WorkerExit(k) => LiveAfterUpdate(s.table, k, s.table[k].(worker := Exited));
  }

  lemma ElsewhereKeepsLifecycle(s: State, e: Event)
    requires Lifecycle(s) && Possible(s, e) && Elsewhere(e)
    ensures Lifecycle(Step(s, e))
  {
    assert Step(s, e).table == s.table;
  }

  lemma StepKeepsLifecycle(s: State, e: Event)
    requires Lifecycle(s) && Possible(s, e)
    ensures Lifecycle(Step(s, e))
  {
    if e.Subscribe? {
      SubscribeKeepsLifecycle(s, e.id);
    } else if e.Unsubscribe? {
      DropKeepsLifecycle(s, e.id);
    } else if e.Offer? {
      OfferKeepsLifecycle(s);
    } else if Elsewhere(e) {
      ElsewhereKeepsLifecycle(s, e);
    } else {
      WorkerKeepsLifecycle(s, e);
    }
  }

  // ---------- over whole runs ----------

  ghost predicate Good(s: State) {
    Conserved(s) && Roster(s) && TrailsFit(s) && Lifecycle(s)
  }

  lemma StepKeepsGood(s: State, e: Event)
    requires Good(s) && Possible(s, e)
    ensures Good(Step(s, e)) && Step(s, e).capacity == s.capacity
  {
    StepKeepsConserved(s, e);
    StepKeepsRoster(s, e);
    StepKeepsTrails(s, e);
    StepKeepsLifecycle(s, e);
  }

  lemma {:induction false} EveryRunIsGood(bufSize: int, events: seq<Event>, s: State)
    requires Run(Fresh(bufSize), events, s)
    ensures Good(s) && s.capacity == Capacity(bufSize)
    decreases |events|
  {
    if events != [] {
      var n := |events| - 1;
      var e := events[n];
      var before :| Run(Fresh(bufSize), events[..n], before) && Possible(before, e) && s == Step(before, e);
      EveryRunIsGood(bufSize, events[..n], before);
      StepKeepsGood(before, events[n]);
    }
  }

  /** `a` with some elements left out of `b`, in the same order. */
  predicate Subsequence(a: seq<nat>, b: seq<nat>) {
    if a == [] then true
    else if b == [] then false
    else if a[|a| - 1] == b[|b| - 1] then Subsequence(a[..|a| - 1], b[..|b| - 1])
    else Subsequence(a, b[..|b| - 1])
  }

  lemma PositionOf<T>(s: seq<T>, x: T) returns (i: nat)
    requires x in s
    ensures i < |s| && s[i] == x
  {
    i :| i < |s| && s[i] == x;
  }

  lemma {:induction false} RisingSubsequence(a: seq<nat>, b: seq<nat>)
    requires Rising(a) && Rising(b) && forall x :: x in a ==> x in b
    ensures Subsequence(a, b)
    decreases |b|
  {
    assert a != [] ==> a[0] in b;
    if a != [] && b != [] {
      var x, y := a[|a| - 1], b[|b| - 1];
      var rest := if x == y then a[..|a| - 1] else a;
      forall z | z in rest ensures z in b[..|b| - 1] {
        var i := PositionOf(rest, z);
        var j := PositionOf(b, z);
        var m := PositionOf(b, x);
        assert rest[i] == a[i] && (i < |a| - 1 ==> a[i] < x);
        assert x <= y && (x != y ==> m < |b| - 1);
        assert z < y;
        assert b[..|b| - 1][j] == z;
      }
      RisingSubsequence(rest, b[..|b| - 1]);
    }
  }

  /** Everything one subscriber has had, in any run: a subsequence, in publication order and without duplicates,
      of the events fanned out since it subscribed, and exactly that stretch when its queue was never full. */
  lemma DeliveryIsOrdered(bufSize: int, events: seq<Event>, s: State, k: nat)
    requires Run(Fresh(bufSize), events, s) && k < |s.table|
    ensures s.table[k].since + s.table[k].offers <= |s.fanned|
    ensures Rising(Trail(s.table[k])) && Subsequence(Trail(s.table[k]), Window(s.fanned, s.table[k]))
    ensures |s.table[k].queue| <= 64 && |s.ch| <= if bufSize <= 0 then 256 else bufSize
    ensures s.table[k].missed == 0 ==> Trail(s.table[k]) == Window(s.fanned, s.table[k])
    ensures k in s.subs && !s.dispatcher.Fanning? ==> Window(s.fanned, s.table[k]) == s.fanned[s.table[k].since..]
  {
    EveryRunIsGood(bufSize, events, s);
    FannedRises(s);
    assert TrailFits(s.fanned, s.table[k]);
    RisingSubsequence(Trail(s.table[k]), Window(s.fanned, s.table[k]));
    if k in s.subs {
      var j := PositionOf(s.subs, k);
      assert Owed(s, j) == 0 || s.dispatcher.Fanning?;
    }
  }

  lemma OfferGrows(sub: Subscriber, e: nat)
    ensures Trail(sub) <= Trail(Offered(sub, e))
  {
    if |sub.queue| < SUBSCRIBER_QUEUE_SIZE { assert Trail(Offered(sub, e)) == Trail(sub) + [e]; }
  }

  lemma TakeGrows(sub: Subscriber)
    requires sub.queue != []
    ensures Trail(sub) <= Trail(Taken(sub)) && sub.delivered <= Taken(sub).delivered
  {
    assert Trail(Taken(sub)) == Trail(sub);
  }

  /** Only an offer and a delivery touch a subscriber's events. */
  lemma EventsStay(s: State, e: Event, k: nat)
    requires Possible(s, e) && k < |s.table| && !e.Offer? && !e.Take?
    ensures k < |Step(s, e).table|
    ensures Step(s, e).table[k].delivered == s.table[k].delivered && Step(s, e).table[k].queue == s.table[k].queue
  {}

  /** No step takes an event back from a subscriber: what it was delivered and has queued only grows at the end. */
  lemma TrailsGrow(s: State, e: Event, k: nat)
    requires Possible(s, e) && k < |s.table|
    ensures k < |Step(s, e).table| && Trail(s.table[k]) <= Trail(Step(s, e).table[k])
    ensures s.table[k].delivered <= Step(s, e).table[k].delivered
  {
    if e.Offer? {
      OfferGrows(s.table[k], s.dispatcher.e);
    } else if e.Take? {
      if e.k == k { TakeGrows(s.table[k]); }
    } else {
      EventsStay(s, e, k);
    }
  }

  /** When every publication was accepted and a registered subscriber missed none, its delivered events, its queue,
      the event in hand and the channel hold together every publication since it subscribed, each once and in order. */
  lemma {:induction false} AccountedFor(bufSize: int, events: seq<Event>, s: State, k: nat)
    requires Run(Fresh(bufSize), events, s) && k < |s.table| && k in s.subs && !s.dispatcher.Fanning?
    requires |s.accepted| == s.published && s.table[k].missed == 0
    ensures s.accepted == seq(s.published, i requires 0 <= i < s.published => i)
    ensures s.table[k].since <= |s.accepted|
    ensures s.accepted == s.accepted[..s.table[k].since] + Trail(s.table[k]) + InHand(s) + s.ch
  {
    EveryRunIsGood(bufSize, events, s);
    DeliveryIsOrdered(bufSize, events, s, k);
    AllNumbers(s.accepted, s.published);
    FromOnePoint(s.accepted, s.fanned, InHand(s), s.ch, s.table[k].since, Trail(s.table[k]));
  }

  /** A subscriber misses an event exactly when it is offered one while 64 are waiting. */
  lemma MissesOnlyWhenFull(s: State, e: Event, k: nat)
    requires Possible(s, e) && k < |s.table|
    ensures k < |Step(s, e).table|
    ensures Step(s, e).table[k].missed == s.table[k].missed +
      if e.Offer? && s.subs[s.dispatcher.next] == k && |s.table[k].queue| >= 64 then 1 else 0
  {}

  /** A publication is refused exactly when the channel holds as many as it can. */
  lemma RefusesOnlyWhenFull(s: State, e: Event)
    requires Possible(s, e)
    ensures Step(s, e).published == s.published + if e.Publish? then 1 else 0
    ensures |Step(s, e).accepted| == |s.accepted| + if e.Publish? && |s.ch| < s.capacity then 1 else 0
  {}

  lemma NewcomersMissedNothing(s: State, e: Event, k: nat)
    requires Possible(s, e) && |s.table| <= k < |Step(s, e).table|
    ensures Step(s, e).table[k].missed == 0
  {}

  /** There is room for one more event in the channel, and in the subscriber's queue if it is there yet. */
  predicate HasRoom(s: State, bufSize: int, k: nat) {
    && |s.ch| < (if bufSize <= 0 then 256 else bufSize)
    && (k < |s.table| ==> |s.table[k].queue| < 64)
  }

  /** At every state the run went through before its last there was room. */
  ghost predicate AlwaysRoom(bufSize: int, events: seq<Event>, k: nat) {
    forall i, t :: 0 <= i < |events| && Run(Fresh(bufSize), events[..i], t) ==> HasRoom(t, bufSize, k)
  }

  lemma RoomBefore(bufSize: int, events: seq<Event>, k: nat, n: nat)
    requires AlwaysRoom(bufSize, events, k) && n <= |events|
    ensures AlwaysRoom(bufSize, events[..n], k)
  {
    forall i, t | 0 <= i < n && Run(Fresh(bufSize), events[..n][..i], t) ensures HasRoom(t, bufSize, k) {
      assert events[..n][..i] == events[..i];
    }
  }

  lemma {:induction false} RoomMissesNothing(bufSize: int, events: seq<Event>, s: State, k: nat)
    requires Run(Fresh(bufSize), events, s) && AlwaysRoom(bufSize, events, k)
    ensures |s.accepted| == s.published && (k < |s.table| ==> s.table[k].missed == 0)
    decreases |events|
  {
    if events != [] {
      var n := |events| - 1;
      var e := events[n];
      var before :| Run(Fresh(bufSize), events[..n], before) && Possible(before, e) && s == Step(before, e);
      assert HasRoom(before, bufSize, k);
      RoomBefore(bufSize, events, k, n);
      RoomMissesNothing(bufSize, events[..n], before, k);
      EveryRunIsGood(bufSize, events[..n], before);
      RefusesOnlyWhenFull(before, events[n]);
      if k < |before.table| {
        MissesOnlyWhenFull(before, events[n], k);
      } else if k < |s.table| {
        NewcomersMissedNothing(before, events[n], k);
      }
    }
  }

  lemma AllAccepted(bufSize: int, events: seq<Event>, s: State)
    requires Run(Fresh(bufSize), events, s) && |s.accepted| == s.published
    ensures s.accepted == seq(s.published, i requires 0 <= i < s.published => i)
  {
    EveryRunIsGood(bufSize, events, s);
    AllNumbers(s.accepted, s.published);
  }

  /** In every run that always had room in the channel and in the subscriber's queue, all publications were accepted,
      the subscriber had or will have every event fanned out to it, and a registered one's deliveries, its queue, the
      event in hand and the channel hold every publication since it subscribed, each once and in order. */
  lemma NothingLost(bufSize: int, events: seq<Event>, s: State, k: nat)
    requires Run(Fresh(bufSize), events, s) && AlwaysRoom(bufSize, events, k) && k < |s.table|
    ensures s.accepted == seq(s.published, i requires 0 <= i < s.published => i)
    ensures s.table[k].since + s.table[k].offers <= |s.fanned|
    ensures Trail(s.table[k]) == s.fanned[s.table[k].since..s.table[k].since + s.table[k].offers]
    ensures k in s.subs && !s.dispatcher.Fanning? ==>
      && s.table[k].since <= |s.accepted|
      && s.accepted == s.accepted[..s.table[k].since] + Trail(s.table[k]) + InHand(s) + s.ch
  {
    RoomMissesNothing(bufSize, events, s, k);
    AllAccepted(bufSize, events, s);
    DeliveryIsOrdered(bufSize, events, s, k);
    if k in s.subs && !s.dispatcher.Fanning? { AccountedFor(bufSize, events, s, k); }
  }

  // ---------- who is registered ----------

  /** The registered subscribers but those with this id, in order. */
  function Others(s: State, id: string, n: nat): seq<nat>
    requires WellIndexed(s) && n <= |s.subs|
  {
    if n == 0 then [] else Others(s, id, n - 1) + if s.table[s.subs[n - 1]].id == id then [] else [s.subs[n - 1]]
  }

  lemma {:induction false} OthersBefore(s: State, id: string, n: nat)
    requires WellIndexed(s) && n <= |s.subs| && forall i :: 0 <= i < n ==> s.table[s.subs[i]].id != id
    ensures Others(s, id, n) == s.subs[..n]
  {
    if n > 0 {
      OthersBefore(s, id, n - 1);
      assert s.subs[..n] == s.subs[..n - 1] + [s.subs[n - 1]];
    }
  }

  lemma {:induction false} OthersAfter(s: State, id: string, j: nat, n: nat)
    requires WellIndexed(s) && j < n <= |s.subs| && s.table[s.subs[j]].id == id
    requires forall i :: 0 <= i < n && i != j ==> s.table[s.subs[i]].id != id
    ensures Others(s, id, n) == s.subs[..j] + s.subs[j + 1..n]
  {
    if n == j + 1 {
      OthersBefore(s, id, j);
      assert s.subs[j + 1..n] == [];
    } else {
      OthersAfter(s, id, j, n - 1);
      assert s.subs[j + 1..n] == s.subs[j + 1..n - 1] + [s.subs[n - 1]];
    }
  }

  function Quits(s: State, k: nat, id: string): nat
    requires k < |s.table|
  {
    s.table[k].quits + if k in s.subs && s.table[k].id == id then 1 else 0
  }

  /** Of those known before, `t` differs from `s` in nothing but the closed quit channel of who was registered with the
      id. */
  ghost predicate OnlyQuits(s: State, t: State, id: string) {
    && |s.table| <= |t.table|
    && forall k :: 0 <= k < |s.table| ==> t.table[k] == s.table[k].(quits := Quits(s, k, id))
  }

  lemma OneHasId(s: State, id: string)
    requires Roster(s) && Find(s, id, 0) < |s.subs|
    ensures forall i :: 0 <= i < |s.subs| && i != Find(s, id, 0) ==> s.table[s.subs[i]].id != id
  {
    var j := Find(s, id, 0);
    forall i | 0 <= i < |s.subs| && i != j ensures s.table[s.subs[i]].id != id {
      assert s.table[s.subs[if i < j then i else j]].id != s.table[s.subs[if i < j then j else i]].id;
    }
  }

  lemma DropQuits(s: State, id: string)
    requires Roster(s)
    ensures OnlyQuits(s, Drop(s, id), id) && |Drop(s, id).table| == |s.table|
  {
    var j := Find(s, id, 0);
    if j < |s.subs| {
      OneHasId(s, id);
      forall k | 0 <= k < |s.table| ensures k in s.subs && s.table[k].id == id <==> k == s.subs[j] {
        if k in s.subs { var i := PositionOf(s.subs, k); }
      }
    } else {
      forall k | 0 <= k < |s.table| && k in s.subs ensures s.table[k].id != id { var i := PositionOf(s.subs, k); }
    }
  }

  lemma DropFound(s: State, id: string)
    requires WellIndexed(s) && Find(s, id, 0) < |s.subs|
    requires forall i :: 0 <= i < |s.subs| && i != Find(s, id, 0) ==> s.table[s.subs[i]].id != id
    ensures Drop(s, id).subs == Others(s, id, |s.subs|)
  {
    var j := Find(s, id, 0);
    OthersAfter(s, id, j, |s.subs|);
    assert s.subs[j + 1..|s.subs|] == s.subs[j + 1..];
  }

  lemma DropKeepsOthers(s: State, id: string)
    requires Roster(s)
    ensures Drop(s, id).subs == Others(s, id, |s.subs|)
  {
    if Find(s, id, 0) < |s.subs| {
      OneHasId(s, id);
      DropFound(s, id);
    } else {
      OthersBefore(s, id, |s.subs|);
    }
  }

  /** Dropping an id leaves the others registered, in order, and touches nothing of any subscriber but the quit channel
      of the one it drops. */
  lemma DropExactly(s: State, id: string)
    requires Roster(s)
    ensures Drop(s, id).subs == Others(s, id, |s.subs|)
    ensures OnlyQuits(s, Drop(s, id), id) && |Drop(s, id).table| == |s.table|
  {
    DropQuits(s, id);
    DropKeepsOthers(s, id);
  }

  /** After Subscribe the newcomer is registered last, with nothing queued, to be offered what is fanned out from then
      on; who had its id no longer is, and the others stay as they were. Once stopped nothing happens. */
  lemma SubscribeRegisters(s: State, id: string)
    requires Roster(s) && Possible(s, Event.Subscribe(id))
    ensures s.stopped ==> Step(s, Event.Subscribe(id)) == s
    ensures var t := Step(s, Event.Subscribe(id));
      s.stopped || (
        && t.subs == Others(s, id, |s.subs|) + [|s.table|] && |t.table| == |s.table| + 1
        && t.table[|s.table|] == Subscriber(id, |s.fanned|, 0, 0, [], [], 0, Waiting)
        && OnlyQuits(s, t, id))
  {
    DropExactly(s, id);
  }

  /** After Unsubscribe nobody registered has the id, and the others stay as they were. */
  lemma UnsubscribeRemoves(s: State, id: string)
    requires Roster(s) && Possible(s, Event.Unsubscribe(id))
    ensures Step(s, Event.Unsubscribe(id)).subs == Others(s, id, |s.subs|)
    ensures OnlyQuits(s, Step(s, Event.Unsubscribe(id)), id)
  {
    DropExactly(s, id);
  }

  // ---------- one fan-out ----------

  lemma OneOffered(s: State, k: nat)
    requires Possible(s, Offer) && k < |s.table|
    ensures |Step(s, Offer).table| == |s.table|
    ensures Step(s, Offer).table[k] ==
      if s.subs[s.dispatcher.next] == k then Offered(s.table[k], s.dispatcher.e) else s.table[k]
  {}

  /** The fan-out loop offers its event to every registered subscriber from the next one on, once, and then gives the
      lock back. */
  lemma {:induction false} FanOutReachesAll(s: State, k: nat)
    requires WellIndexed(s) && Distinct(s.subs) && s.dispatcher.Fanning? && k < |s.table|
    ensures FanOut(s).dispatcher == Listening && FanOut(s).subs == s.subs && |FanOut(s).table| == |s.table|
    ensures FanOut(s).table[k] ==
      if exists j :: s.dispatcher.next <= j < |s.subs| && s.subs[j] == k then Offered(s.table[k], s.dispatcher.e)
      else s.table[k]
    decreases |s.subs| - s.dispatcher.next
  {
    if s.dispatcher.next < |s.subs| {
      OneOffered(s, k);
      FanOutReachesAll(Step(s, Offer), k);
    }
  }

  lemma FromOnePoint(accepted: seq<nat>, fanned: seq<nat>, hand: seq<nat>, ch: seq<nat>, since: nat, trail: seq<nat>)
    requires accepted == fanned + hand + ch && since <= |fanned| && trail == fanned[since..]
    ensures accepted == accepted[..since] + trail + hand + ch
  {
    assert fanned == fanned[..since] + trail;
    assert accepted[..since] == fanned[..since];
  }

  lemma {:induction false} AllNumbers(a: seq<nat>, n: nat)
    requires Rising(a) && |a| == n && forall i :: 0 <= i < |a| ==> a[i] < n
    ensures a == seq(n, i requires 0 <= i < n => i)
  {
    if n > 0 {
      assert a[n - 1] < n;
      forall i | 0 <= i < n - 1 ensures a[i] < n - 1 { assert a[i] < a[n - 1]; }
      AllNumbers(a[..n - 1], n - 1);
      forall i | 0 <= i < n - 1 ensures a[i] == i { assert a[..n - 1][i] == i; }
      if n > 1 { assert a[n - 2] < a[n - 1]; }
    }
  }

  lemma StoppedStep(s: State, e: Event)
    requires s.stopped && Possible(s, e)
    ensures Step(s, e).stopped && |Step(s, e).table| == |s.table| && Step(s, e).wg <= s.wg
  {}

  /** Once the stop flag is set no worker starts and no Add happens, so the wait group only falls. */
  lemma {:induction false} NoAddAfterStop(s: State, events: seq<Event>, t: State)
    requires Run(s, events, t) && Good(s) && s.stopped
    ensures Good(t) && t.stopped && |t.table| == |s.table| && t.wg <= s.wg
    decreases |events|
  {
    if events != [] {
      var n := |events| - 1;
      var before :| Run(s, events[..n], before) && Possible(before, events[n]) && t == Step(before, events[n]);
      NoAddAfterStop(s, events[..n], before);
      StepKeepsGood(before, events[n]);
      StoppedStep(before, events[n]);
    }
  }

  /** The lifecycle of every run: registered ids are distinct, a quit channel is closed once and exactly when its
      subscriber leaves the list, done is closed at most once, and Stop returns only after the dispatcher and
      every worker have exited; they stay exited, whatever is called afterwards. */
  lemma CleanLifecycle(bufSize: int, events: seq<Event>, s: State)
    requires Run(Fresh(bufSize), events, s)
    ensures WellIndexed(s) && DistinctIds(s) && QuitsExact(s)
    ensures s.doneCloses <= 1
    ensures s.wg == LiveWorkers(s.table) + (if s.dispatcher.Gone? then 0 else 1)
    ensures s.stopper.Returned? ==> s.dispatcher.Gone? && forall k :: 0 <= k < |s.table| ==> s.table[k].worker == Exited
  {
    EveryRunIsGood(bufSize, events, s);
    if s.stopper.Returned? {
      forall k | 0 <= k < |s.table| ensures s.table[k].worker == Exited { NoneLive(s.table, k); }
    }
  }
}
