/** The in-process event bus: a buffered channel, one dispatcher that fans out under the read lock, and one
    worker per subscriber. An event is named by the number of the Publish call that brought it. */
module EventBus {
  const DEFAULT_BUFFER_SIZE := 256
  const SUBSCRIBER_QUEUE_SIZE := 64

  datatype Worker = Waiting | Handling | Exited

  /** A subscriber: `since` and `offers` say which fanned-out events it was offered, `missed` how many of them
      met a full queue, `quits` how often its quit channel was closed. */
  datatype Subscriber = Subscriber(id: string, since: nat, offers: nat, missed: nat,
                                   queue: seq<nat>, delivered: seq<nat>, quits: nat, worker: Worker)

  /** Fanning: holds the read lock, with the first `next` subscribers served. */
  datatype Dispatcher = Listening | Holding(e: nat) | Fanning(e: nat, next: nat) | Gone

  datatype Stopper = NotCalled | Flagged | Closed | Returned

  /** `table` lists every subscriber ever made, `subs` the registered ones as positions in it. */
  datatype State = State(
    capacity: nat, ch: seq<nat>, published: nat, accepted: seq<nat>, fanned: seq<nat>, dispatcher: Dispatcher,
    table: seq<Subscriber>, subs: seq<nat>, stopped: bool, doneCloses: nat, wg: int, stopper: Stopper)

  datatype Event =
    | Publish
    | Subscribe(id: string)
    | Unsubscribe(id: string)
    | Receive
    | ReadLock
    | Offer
    | ReadUnlock
    | DispatcherExit
    | Take(k: nat)
    | Handled(k: nat)
    | WorkerExit(k: nat)
    | SetStopped
    | CloseDone
    | WaitReturn

  function Capacity(bufSize: int): nat {
    if bufSize <= 0 then DEFAULT_BUFFER_SIZE else bufSize
  }

  function Fresh(bufSize: int): State {
    State(Capacity(bufSize), [], 0, [], [], Listening, [], [], false, 0, 1, NotCalled)
  }

  predicate WellIndexed(s: State) {
    forall j :: 0 <= j < |s.subs| ==> s.subs[j] < |s.table|
  }

  /** When each step of a goroutine can happen; the lock excludes writers while the dispatcher fans out. */
  predicate Possible(s: State, e: Event) {
    && WellIndexed(s)
    && match e
       case Publish => true
       case Subscribe(_) => !s.dispatcher.Fanning?
       case Unsubscribe(_) => !s.dispatcher.Fanning?
       case Receive => s.dispatcher.Listening? && s.ch != []
       case ReadLock => s.dispatcher.Holding?
       case Offer => s.dispatcher.Fanning? && s.dispatcher.next < |s.subs|
       case ReadUnlock => s.dispatcher.Fanning? && s.dispatcher.next >= |s.subs|
       case DispatcherExit => s.dispatcher.Listening? && s.doneCloses > 0
       case Take(k) => k < |s.table| && s.table[k].worker.Waiting? && s.table[k].queue != []
       case Handled(k) => k < |s.table| && s.table[k].worker.Handling?
       case WorkerExit(k) => k < |s.table| && s.table[k].worker.Waiting? && (s.table[k].quits > 0 || s.doneCloses > 0)
       case SetStopped => s.stopper.NotCalled? && !s.dispatcher.Fanning?
       case CloseDone => s.stopper.Flagged?
       case WaitReturn => s.stopper.Closed? && s.wg == 0
  }

  /** The position of the first registered subscriber with this id, or the number of subscribers. */
  function Find(s: State, id: string, j: nat): (r: nat)
    requires WellIndexed(s) && j <= |s.subs|
    ensures j <= r <= |s.subs| && (r < |s.subs| ==> s.table[s.subs[r]].id == id)
    ensures forall i :: j <= i < r ==> s.table[s.subs[i]].id != id
    decreases |s.subs| - j
  {
    if j == |s.subs| || s.table[s.subs[j]].id == id then j else Find(s, id, j + 1)
  }

  /** Close the quit channel of the subscriber with this id and drop it from the list. */
  function Drop(s: State, id: string): State
    requires WellIndexed(s)
  {
    var j := Find(s, id, 0);
    if j == |s.subs| then s else
      var k := s.subs[j];
      s.(table := s.table[k := s.table[k].(quits := s.table[k].quits + 1)], subs := s.subs[..j] + s.subs[j + 1..])
  }

  function Newcomer(id: string, since: nat): Subscriber {
    Subscriber(id, since, 0, 0, [], [], 0, Waiting)
  }

  function Enroll(s: State, id: string): State {
    s.(table := s.table + [Newcomer(id, |s.fanned|)], subs := s.subs + [|s.table|], wg := s.wg + 1)
  }

  /** A non-blocking send to the subscriber's queue. */
  function Offered(sub: Subscriber, e: nat): Subscriber {
    if |sub.queue| < SUBSCRIBER_QUEUE_SIZE then sub.(queue := sub.queue + [e], offers := sub.offers + 1)
    else sub.(offers := sub.offers + 1, missed := sub.missed + 1)
  }

  /** The oldest queued event goes to the handler. */
  function Taken(sub: Subscriber): Subscriber
    requires sub.queue != []
  {
    sub.(queue := sub.queue[1..], delivered := sub.delivered + [sub.queue[0]], worker := Handling)
  }

  function Put(s: State, k: nat, sub: Subscriber): State
    requires k < |s.table|
  {
    s.(table := s.table[k := sub])
  }

  function Step(s: State, e: Event): State
    requires Possible(s, e)
  {
    match e
    case Publish =>
      if |s.ch| < s.capacity
      then s.(ch := s.ch + [s.published], accepted := s.accepted + [s.published], published := s.published + 1)
      else s.(published := s.published + 1)
    case Subscribe(id) => if s.stopped then s else Enroll(Drop(s, id), id)
    case Unsubscribe(id) => Drop(s, id)
    case Receive => s.(dispatcher := Holding(s.ch[0]), ch := s.ch[1..])
    case ReadLock => s.(dispatcher := Fanning(s.dispatcher.e, 0), fanned := s.fanned + [s.dispatcher.e])
    case Offer =>
      var k := s.subs[s.dispatcher.next];
      Put(s, k, Offered(s.table[k], s.dispatcher.e)).(dispatcher := Fanning(s.dispatcher.e, s.dispatcher.next + 1))
    case ReadUnlock => s.(dispatcher := Listening)
    case DispatcherExit => s.(dispatcher := Gone, wg := s.wg - 1)
    case Take(k) => Put(s, k, Taken(s.table[k]))
    case Handled(k) => Put(s, k, s.table[k].(worker := Waiting))
    case WorkerExit(k) => Put(s, k, s.table[k].(worker := Exited)).(wg := s.wg - 1)
    case SetStopped => s.(stopped := true, stopper := Flagged)
    case CloseDone => s.(doneCloses := s.doneCloses + 1, stopper := Closed)
    case WaitReturn => s.(stopper := Returned)
  }

  ghost predicate Run(start: State, events: seq<Event>, s: State)
    decreases |events|
  {
    if events == [] then s == start else
      var n := |events| - 1;
      exists before :: Run(start, events[..n], before) && Possible(before, events[n]) && s == Step(before, events[n])
  }

  // ---------- the bus as the code keeps it ----------

  class Bus {
    const capacity: nat
    var ch: seq<nat>
    var published: nat
    var accepted: seq<nat>
    var fanned: seq<nat>
    var dispatcher: Dispatcher
    var table: seq<Subscriber>
    var subs: seq<nat>
    var stopped: bool
    var doneCloses: nat
    var wg: int
    var stopper: Stopper

    function Value(): State
      reads this
    {
      State(capacity, ch, published, accepted, fanned, dispatcher, table, subs, stopped, doneCloses, wg, stopper)
    }

    constructor (bufSize: int)
      ensures Value() == Fresh(bufSize)
    {
      var size := bufSize;
      if size <= 0 {
        size := DEFAULT_BUFFER_SIZE;
      }
      capacity, ch, published, accepted, fanned, dispatcher := size, [], 0, [], [], Listening;
      table, subs, stopped, doneCloses, wg, stopper := [], [], false, 0, 1, NotCalled;
    }

    method CloseAndCut(id: string)
      requires WellIndexed(Value())
      modifies this
      ensures Value() == Drop(old(Value()), id)
    {
      var j := 0;
      while j < |subs|
        invariant 0 <= j <= |subs| && Value() == old(Value())
        invariant Find(Value(), id, 0) == Find(Value(), id, j)
      {
        var k := subs[j];
        if table[k].id == id {
          table := table[k := table[k].(quits := table[k].quits + 1)];
          subs := subs[..j] + subs[j + 1..];
          return;
        }
        j := j + 1;
      }
    }

    method Subscribe(id: string)
      requires Possible(Value(), Event.Subscribe(id))
      modifies this
      ensures Value() == Step(old(Value()), Event.Subscribe(id))
    {
      if stopped {
        return;
      }
      CloseAndCut(id);
      table, subs, wg := table + [Newcomer(id, |fanned|)], subs + [|table|], wg + 1;
    }

    method Unsubscribe(id: string)
      requires Possible(Value(), Event.Unsubscribe(id))
      modifies this
      ensures Value() == Step(old(Value()), Event.Unsubscribe(id))
    {
      CloseAndCut(id);
    }

    method Publish() returns (sent: bool)
      requires Possible(Value(), Event.Publish)
      modifies this
      ensures Value() == Step(old(Value()), Event.Publish)
      ensures sent <==> accepted == old(accepted) + [old(published)]
    {
      sent := |ch| < capacity;
      if sent {
        ch, accepted := ch + [published], accepted + [published];
      }
      published := published + 1;
    }

    /** The body of the fan-out loop: a non-blocking send to the next subscriber. */
    method OfferNext()
      requires Possible(Value(), Offer)
      modifies this
      ensures Value() == Step(old(Value()), Offer)
    {
      var e, k := dispatcher.e, subs[dispatcher.next];
      var sub := table[k];
      if |sub.queue| < SUBSCRIBER_QUEUE_SIZE {
        table := table[k := sub.(queue := sub.queue + [e], offers := sub.offers + 1)];
      } else {
        table := table[k := sub.(offers := sub.offers + 1, missed := sub.missed + 1)];
      }
      dispatcher := Fanning(e, dispatcher.next + 1);
    }

    /** The fan-out loop, with nobody else in between. */
    method FanOutLoop()
      requires WellIndexed(Value()) && dispatcher.Fanning?
      modifies this
      ensures Value() == FanOut(old(Value()))
    {
      while dispatcher.next < |subs|
        invariant WellIndexed(Value()) && dispatcher.Fanning? && FanOut(Value()) == FanOut(old(Value()))
        decreases |subs| - dispatcher.next
      {
        label before:
        OfferNext();
        assert Value() == Step(old@before(Value()), Offer);
      }
      dispatcher := Listening;
    }

    /** One delivery of a worker, up to the call of its handler. */
    method Deliver(k: nat) returns (e: nat)
      requires Possible(Value(), Take(k))
      modifies this
      ensures Value() == Step(old(Value()), Take(k))
      ensures old(table[k].queue) == [e] + table[k].queue && table[k].delivered == old(table[k].delivered) + [e]
    {
      var sub := table[k];
      e := sub.queue[0];
      table := table[k := sub.(queue := sub.queue[1..], delivered := sub.delivered + [e], worker := Handling)];
    }

    /** The first half of Stop, up to the wait. */
    method BeginStop()
      requires Possible(Value(), SetStopped)
      modifies this
      ensures Possible(Step(old(Value()), SetStopped), CloseDone)
      ensures Value() == Step(Step(old(Value()), SetStopped), CloseDone)
    {
      stopped, stopper := true, Flagged;
      doneCloses, stopper := doneCloses + 1, Closed;
    }
  }

  /** The rest of a fan-out when nothing else moves. */
  function FanOut(s: State): State
    requires WellIndexed(s) && s.dispatcher.Fanning?
    decreases |s.subs| - s.dispatcher.next
  {
    if s.dispatcher.next >= |s.subs| then Step(s, ReadUnlock) else FanOut(Step(s, Offer))
  }
}
