/** What the collector reports for a process that is left alone: no byte too few. */
module MtgAccounting {
  import opened MtgTraffic

  /** What the next scrape of an inbound is measured against, once what is in hand is stored. */
  function Baseline(w: World, id: int): Rows
    requires id in w.procs
  {
    if w.collector.Working? && w.collector.snaps != [] && w.collector.scraped.Some? && w.collector.snaps[0].id == id
    then w.collector.scraped.value
    else w.procs[id].last
  }

  /** The inbound runs this process, the process serves the client, and the collector has seen the client before. */
  ghost predicate Settled(w: World, id: int, pid: nat, email: string, down: bool) {
    && id in w.procs && w.procs[id].pid == pid && !Replaced(Snaps(w), id, pid)
    && pid in w.rows && email in w.rows[pid] && email in Baseline(w, id)
    && Side(Baseline(w, id)[email], down) <= Side(w.rows[pid][email], down)
  }

  /** The bytes counted and not reported yet, which the next scrape brings. */
  function Pending(w: World, id: int, pid: nat, email: string, down: bool): int
    requires id in w.procs && pid in w.rows && email in w.rows[pid] && email in Baseline(w, id)
  {
    Side(w.rows[pid][email], down) - Side(Baseline(w, id)[email], down)
  }

  /** The event neither restarts nor removes the inbound, nor drops the client. */
  predicate LeavesAlone(e: Event, id: int, pid: nat, email: string) {
    && !(e.Start? && e.id == id) && !(e.Remove? && e.id == id)
    && !(e.DropUser? && e.pid == pid && e.email == email)
  }

  /** From one state to the other exactly what was counted was reported, give or take what was and is pending. */
  ghost predicate Balanced(v: World, w: World, id: int, pid: nat, email: string, down: bool)
    requires Settled(v, id, pid, email, down) && Settled(w, id, pid, email, down)
  {
    Get(w.counted, (pid, email, down)) - Get(v.counted, (pid, email, down)) ==
      Get(w.reported, (pid, email, down)) - Get(v.reported, (pid, email, down))
      + Pending(w, id, pid, email, down) - Pending(v, id, pid, email, down)
  }

  lemma CountBalances(w: World, e: Event, id: int, pid: nat, email: string, down: bool)
    requires Settled(w, id, pid, email, down) && Possible(w, e) && (e.Count? || e.DropUser?)
    requires LeavesAlone(e, id, pid, email)
    ensures Settled(Step(w, e), id, pid, email, down) && Balanced(w, Step(w, e), id, pid, email, down)
  {
    assert Snaps(Step(w, e)) == Snaps(w);
  }

  lemma OthersBalance(w: World, e: Event, id: int, pid: nat, email: string, down: bool)
    requires Settled(w, id, pid, email, down) && Possible(w, e) && (e.Start? || e.Remove?)
    requires LeavesAlone(e, id, pid, email)
    ensures Settled(Step(w, e), id, pid, email, down) && Balanced(w, Step(w, e), id, pid, email, down)
  {
    assert Snaps(Step(w, e)) == Snaps(w);
  }

  lemma BeginBalances(w: World, e: Event, id: int, pid: nat, email: string, down: bool)
    requires Settled(w, id, pid, email, down) && Possible(w, e) && e.Begin?
    ensures Settled(Step(w, e), id, pid, email, down) && Balanced(w, Step(w, e), id, pid, email, down)
  {
    var v := Step(w, e);
    forall i | 0 <= i < |Snaps(v)| && Snaps(v)[i].id == id ensures Snaps(v)[i].pid == pid {}
  }

  /** A scrape of this process reports all that was pending. */
  lemma ScrapeOwnBalances(w: World, e: Event, id: int, pid: nat, email: string, down: bool)
    requires Shape(w) && Settled(w, id, pid, email, down) && Possible(w, e) && e == Scrape(true)
    requires Snaps(w)[0].id == id
    ensures Settled(Step(w, e), id, pid, email, down) && Balanced(w, Step(w, e), id, pid, email, down)
    ensures Pending(Step(w, e), id, pid, email, down) == 0
  {
    assert Agrees(Snaps(w), id, w.procs[id]);
    ScrapeReports(w, e, email, down);
  }

  lemma ScrapeOtherBalances(w: World, e: Event, id: int, pid: nat, email: string, down: bool)
    requires Shape(w) && Settled(w, id, pid, email, down) && Possible(w, e) && e == Scrape(true)
    requires Snaps(w)[0].id != id
    ensures Settled(Step(w, e), id, pid, email, down) && Balanced(w, Step(w, e), id, pid, email, down)
  {
    assert Agrees(Snaps(w), id, w.procs[id]);
    ScrapeReports(w, e, email, down);
  }

  lemma PopSpeaksLess(snaps: seq<Snap>, id: int, pid: nat)
    requires snaps != [] && !Replaced(snaps, id, pid)
    ensures !Replaced(snaps[1..], id, pid)
  {
    PoppedSpeaks(snaps, id, pid);
  }

  lemma PopBalances(w: World, e: Event, id: int, pid: nat, email: string, down: bool)
    requires Shape(w) && Settled(w, id, pid, email, down) && Possible(w, e) && (e == Scrape(false) || e.Store?)
    ensures Settled(Step(w, e), id, pid, email, down) && Balanced(w, Step(w, e), id, pid, email, down)
  {
    PopSpeaksLess(Snaps(w), id, pid);
    assert Snaps(Step(w, e)) == Snaps(w)[1..];
    assert Snaps(w)[0].id == id ==> Snaps(w)[0].pid == pid;
  }

  lemma StepBalances(w: World, e: Event, id: int, pid: nat, email: string, down: bool)
    requires Shape(w) && Settled(w, id, pid, email, down) && Possible(w, e) && LeavesAlone(e, id, pid, email)
    ensures Settled(Step(w, e), id, pid, email, down) && Balanced(w, Step(w, e), id, pid, email, down)
  {
    if e.Count? || e.DropUser? {
      CountBalances(w, e, id, pid, email, down);
    } else if e.Start? || e.Remove? {
      OthersBalance(w, e, id, pid, email, down);
    } else if e.Begin? {
      BeginBalances(w, e, id, pid, email, down);
    } else if e == Scrape(false) || e.Store? {
      PopBalances(w, e, id, pid, email, down);
    } else if Snaps(w)[0].id == id {
      ScrapeOwnBalances(w, e, id, pid, email, down);
    } else {
      ScrapeOtherBalances(w, e, id, pid, email, down);
    }
  }

  /** A run leads from one state to another. */
  ghost predicate Leads(v: World, events: seq<Event>, w: World)
    decreases |events|
  {
    if events == [] then v == w else
      var n := |events| - 1;
      exists before :: Leads(v, events[..n], before) && Possible(before, events[n]) && w == Step(before, events[n])
  }

  lemma RunStep(events: seq<Event>, e: Event, before: World, more: seq<Event>)
    requires Run(events, before) && Possible(before, e) && more == events + [e]
    ensures Run(more, Step(before, e))
  {
    assert more[..|events|] == events && more[|events|] == e;
  }

  lemma LastApart<T>(a: seq<T>, b: seq<T>)
    requires b != []
    ensures a + b == a + b[..|b| - 1] + [b[|b| - 1]]
  {}

  lemma {:induction false} RunGoesOn(past: seq<Event>, v: World, events: seq<Event>, w: World)
    requires Run(past, v) && Leads(v, events, w)
    ensures Run(past + events, w)
    decreases |events|
  {
    if events == [] {
      assert past + events == past;
    } else {
      var n := |events| - 1;
      var before :| Leads(v, events[..n], before) && Possible(before, events[n]) && w == Step(before, events[n]);
      RunGoesOn(past, v, events[..n], before);
      LastApart(past, events);
      RunStep(past + events[..n], events[n], before, past + events);
    }
  }

  lemma ShapeOnTheWay(past: seq<Event>, v: World, events: seq<Event>, w: World)
    requires Run(past, v) && Leads(v, events, w)
    ensures Shape(w)
  {
    RunGoesOn(past, v, events, w);
    RunKeepsInvariant(past + events, w, "", false);
  }

  ghost predicate NothingLost(v: World, w: World, id: int, pid: nat, email: string, down: bool) {
    && Settled(v, id, pid, email, down) && Settled(w, id, pid, email, down)
    && Balanced(v, w, id, pid, email, down)
  }

  lemma OneStepMore(v: World, w: World, e: Event, id: int, pid: nat, email: string, down: bool)
    requires NothingLost(v, w, id, pid, email, down)
    requires Shape(w) && Possible(w, e) && LeavesAlone(e, id, pid, email)
    ensures NothingLost(v, Step(w, e), id, pid, email, down)
  {
    StepBalances(w, e, id, pid, email, down);
  }

  /** In every run, from when the collector has once seen a client of a process, and for as long as the process is
      neither restarted nor removed and keeps the client, every byte counted is reported or is what the next scrape
      brings: whatever scrapes fail, whatever happens to other inbounds, and wherever the collector stands. */
  lemma {:induction false} NothingIsLost(past: seq<Event>, v: World, events: seq<Event>, w: World,
                                         id: int, pid: nat, email: string, down: bool)
    requires Run(past, v) && Settled(v, id, pid, email, down) && Leads(v, events, w)
    requires forall k :: 0 <= k < |events| ==> LeavesAlone(events[k], id, pid, email)
    ensures NothingLost(v, w, id, pid, email, down)
    decreases |events|
  {
    if events != [] {
      var n := |events| - 1;
      var before :| Leads(v, events[..n], before) && Possible(before, events[n]) && w == Step(before, events[n]);
      NothingIsLost(past, v, events[..n], before, id, pid, email, down);
      ShapeOnTheWay(past, v, events[..n], before);
      OneStepMore(v, before, events[n], id, pid, email, down);
    }
  }
}
