/** What the goroutines of the bus get done when they are left to it: they never block each other. */
module EventBusProgress {
  import opened EventBus
  import opened EventBusSafety

  /** The steps of the dispatcher, the workers and a waiting Stop; handlers return, and nobody calls the bus. */
  predicate OfGoroutine(e: Event) {
    || e.Receive? || e.ReadLock? || e.Offer? || e.ReadUnlock? || e.DispatcherExit?
    || e.Take? || e.Handled? || e.WorkerExit? || e.WaitReturn?
  }

  // ---------- the work left ----------

  function WorkerWork(sub: Subscriber): nat {
    2 * |sub.queue| + match sub.worker
      case Waiting => 1
      case Handling => 2
      case Exited => 0
  }

  function WorkersWork(table: seq<Subscriber>): nat {
    if table == [] then 0 else WorkersWork(table[..|table| - 1]) + WorkerWork(table[|table| - 1])
  }

  /** What one event costs from the channel on. */
  function EventWork(s: State): nat {
    3 * |s.subs| + 3
  }

  function ChannelWork(s: State): nat {
    EventWork(s) * |s.ch|
  }

  function DispatcherWork(s: State): nat {
    match s.dispatcher
    case Gone => 0
    case Listening => 1
    case Holding(_) => EventWork(s)
    case Fanning(_, next) => if next < |s.subs| then 3 * (|s.subs| - next) + 2 else 2
  }

  function WorkLeft(s: State): nat {
    ChannelWork(s) + DispatcherWork(s) + WorkersWork(s.table) + if s.stopper.Returned? then 0 else 1
  }

  lemma {:induction false} WorkersWorkAfter(table: seq<Subscriber>, k: nat, sub: Subscriber)
    requires k < |table|
    ensures WorkersWork(table[k := sub]) == WorkersWork(table) - WorkerWork(table[k]) + WorkerWork(sub)
  {
    var n := |table| - 1;
    if k < n {
      WorkersWorkAfter(table[..n], k, sub);
      assert table[k := sub][..n] == table[..n][k := sub];
    } else {
      assert table[k := sub][..n] == table[..n];
    }
  }

  lemma Product(a: nat, n: nat)
    requires n > 0
    ensures a * n == a * (n - 1) + a
  {}

  lemma ReceiveWorks(s: State)
    requires Possible(s, Receive)
    ensures WorkLeft(Step(s, Receive)) < WorkLeft(s)
  {
    Product(EventWork(s), |s.ch|);
  }

  lemma OfferWorks(s: State)
    requires Possible(s, Offer)
    ensures WorkLeft(Step(s, Offer)) < WorkLeft(s)
  {
    var k := s.subs[s.dispatcher.next];
    WorkersWorkAfter(s.table, k, Offered(s.table[k], s.dispatcher.e));
  }

  lemma WorkerWorks(s: State, e: Event)
    requires Possible(s, e) && (e.Take? || e.Handled? || e.WorkerExit?)
    ensures WorkLeft(Step(s, e)) < WorkLeft(s)
  {
    WorkersWorkAfter(s.table, e.k, Step(s, e).table[e.k]);
  }

  /** Every step of a goroutine is progress. */
  lemma StepWorks(s: State, e: Event)
    requires Possible(s, e) && OfGoroutine(e)
    ensures WorkLeft(Step(s, e)) < WorkLeft(s)
  {
    if e.Receive? {
      ReceiveWorks(s);
    } else if e.Offer? {
      OfferWorks(s);
    } else if e.Take? || e.Handled? || e.WorkerExit? {
      WorkerWorks(s, e);
    }
  }

  /** So left to themselves the goroutines come to rest, in whatever order they are scheduled. */
  lemma {:induction false} ComesToRest(s: State, events: seq<Event>, t: State)
    requires EventBus.Run(s, events, t) && forall i :: 0 <= i < |events| ==> OfGoroutine(events[i])
    ensures |events| + WorkLeft(t) <= WorkLeft(s)
    decreases |events|
  {
    if events != [] {
      var n := |events| - 1;
      var before :| EventBus.Run(s, events[..n], before) && Possible(before, events[n]) && t == Step(before, events[n]);
      ComesToRest(s, events[..n], before);
      StepWorks(before, events[n]);
    }
  }

  // ---------- at rest ----------

  /** No goroutine can go on. */
  ghost predicate AtRest(s: State) {
    forall e :: OfGoroutine(e) ==> !Possible(s, e)
  }

  lemma DispatcherAtRest(s: State)
    requires Good(s) && AtRest(s)
    ensures s.dispatcher.Gone? || (s.dispatcher.Listening? && s.ch == [] && s.doneCloses == 0)
  {
    assert !Possible(s, ReadLock) && !Possible(s, Offer) && !Possible(s, ReadUnlock);
    assert !Possible(s, Receive) && !Possible(s, DispatcherExit);
  }

  lemma WorkerAtRest(s: State, k: nat)
    requires Good(s) && AtRest(s) && k < |s.table|
    ensures s.table[k].worker.Exited?
         || (s.table[k].worker.Waiting? && s.table[k].queue == [] && s.table[k].quits == 0 && s.doneCloses == 0)
  {
    assert !Possible(s, Take(k)) && !Possible(s, Handled(k)) && !Possible(s, WorkerExit(k));
  }

  lemma {:induction false} AllExited(table: seq<Subscriber>)
    requires forall k :: 0 <= k < |table| ==> table[k].worker.Exited?
    ensures LiveWorkers(table) == 0
  {
    if table != [] { AllExited(table[..|table| - 1]); }
  }

  /** Stop never hangs: once it has closed done, the dispatcher and the workers can only come to rest with Stop
      returned, whatever they were doing, whatever was queued and however they are scheduled. */
  lemma StopReturns(bufSize: int, events: seq<Event>, s: State)
    requires EventBus.Run(Fresh(bufSize), events, s) && AtRest(s)
    requires s.stopper.Closed? || s.stopper.Returned?
    ensures s.stopper.Returned?
  {
    EveryRunIsGood(bufSize, events, s);
    DispatcherAtRest(s);
    forall k | 0 <= k < |s.table| ensures s.table[k].worker.Exited? { WorkerAtRest(s, k); }
    AllExited(s.table);
    assert !Possible(s, WaitReturn);
  }

  /** And while the bus has not been stopped they only come to rest when every event accepted has been fanned out and
      every event queued for a registered subscriber has been handed to it. */
  lemma AllIsDelivered(bufSize: int, events: seq<Event>, s: State, k: nat)
    requires EventBus.Run(Fresh(bufSize), events, s) && AtRest(s)
    requires s.stopper.NotCalled? && k in s.subs
    ensures s.fanned == s.accepted && k < |s.table|
    ensures s.table[k].queue == [] && s.table[k].worker.Waiting? && s.table[k].delivered == Trail(s.table[k])
  {
    EveryRunIsGood(bufSize, events, s);
    DispatcherAtRest(s);
    var j := EventBusSafety.PositionOf(s.subs, k);
    WorkerAtRest(s, k);
    assert s.table[k].quits == 0;
    assert s.fanned + [] + [] == s.fanned;
  }

  /** Publishing never waits; and who wants the lock, to subscribe, to unsubscribe or to stop, can have it as soon as
      the fan-out under way has gone once over the subscribers. */
  lemma CallersAreServed(bufSize: int, events: seq<Event>, s: State, id: string)
    requires EventBus.Run(Fresh(bufSize), events, s)
    ensures Possible(s, Publish)
    ensures WellIndexed(s)
    ensures var t := if s.dispatcher.Fanning? then FanOut(s) else s;
      && Possible(t, Event.Subscribe(id)) && Possible(t, Event.Unsubscribe(id))
      && (s.stopper.NotCalled? ==> Possible(t, SetStopped))
  {
    EveryRunIsGood(bufSize, events, s);
    if s.dispatcher.Fanning? { FanOutLeaves(s); }
  }

  lemma {:induction false} FanOutLeaves(s: State)
    requires WellIndexed(s) && s.dispatcher.Fanning?
    ensures WellIndexed(FanOut(s)) && FanOut(s).dispatcher.Listening? && FanOut(s).stopper == s.stopper
    decreases |s.subs| - s.dispatcher.next
  {
    if s.dispatcher.next < |s.subs| { FanOutLeaves(Step(s, Offer)); }
  }
}
