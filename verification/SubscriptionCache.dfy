/** Fetching remote subscriptions: a mutex-guarded cache with a time to live and one flight per URL. */
module SubscriptionCache {
  import opened Options

  const TTL: nat := 300  // five minutes, in seconds
  const CAPACITY := 256

  type Links = seq<string>

  datatype Entry = Entry(links: Links, fetchedAt: nat)

  /** One flight; `links` may be read once `done` is closed. */
  datatype Fetch = Fetch(url: string, links: Links, done: bool)

  /** What the mutex guards, and the flights ever made. */
  datatype Shared = Shared(cache: map<string, Entry>, inflight: map<string, nat>, fetches: seq<Fetch>)

  /** What a call finds under the lock: a live entry, a flight to wait for, or a flight of its own together
      with the stale links it may fall back on. */
  datatype Found = Hit(entry: Entry) | Join(f: nat) | Lead(f: nat, stale: Option<Links>)

  function LookUp(s: Shared, url: string, now: nat): (Shared, Found) {
    if url in s.cache && now - s.cache[url].fetchedAt < TTL then (s, Hit(s.cache[url]))
    else if url in s.inflight then (s, Join(s.inflight[url]))
    else
      (s.(inflight := s.inflight[url := |s.fetches|], fetches := s.fetches + [Fetch(url, [], false)]),
       Lead(|s.fetches|, if url in s.cache then Some(s.cache[url].links) else None))
  }

  /** What trimming may leave: at most the capacity, never without `keep`, and nothing evicted that is newer than
      a survivor other than `keep`. */
  ghost predicate Trimmed(before: map<string, Entry>, keep: string, after: map<string, Entry>) {
    && after.Keys <= before.Keys && (forall u :: u in after ==> after[u] == before[u])
    && (keep in before ==> keep in after)
    && (if |before| <= CAPACITY then after == before else |after| == CAPACITY)
    && (forall x, y :: x in before && x !in after && y in after && y != keep ==>
          before[x].fetchedAt <= before[y].fetchedAt)
  }

  function Landed(s: Shared, f: nat, links: Links): Shared
    requires f < |s.fetches|
  {
    s.(fetches := s.fetches[f := s.fetches[f].(links := links)])
  }

  function Close(s: Shared, f: nat): Shared
    requires f < |s.fetches|
  {
    s.(fetches := s.fetches[f := s.fetches[f].(done := true)], inflight := s.inflight - {s.fetches[f].url})
  }

  lemma SomeMember<T>(s: set<T>) returns (x: T)
    requires s != {}
    ensures x in s
  {
    x :| x in s;
  }

  lemma ShrinkCache(m: map<string, Entry>, url: string)
    requires url in m
    ensures |m - {url}| == |m| - 1
  {
    assert (m - {url}).Keys == m.Keys - {url};
  }

  lemma BiggerThan(m: map<string, Entry>, keep: string)
    requires |m| > 1
    ensures m.Keys - {keep} != {}
  {
    if keep in m {
      assert |m.Keys - {keep}| == |m.Keys| - 1;
    } else {
      assert m.Keys - {keep} == m.Keys;
    }
  }

  // ---------- the guarded maps as the code keeps them ----------

  class Cache {
    var m: map<string, Entry>
    var inflight: map<string, nat>
    var fetches: seq<Fetch>

    function Value(): Shared
      reads this
    {
      Shared(m, inflight, fetches)
    }

    constructor ()
      ensures Value() == Shared(map[], map[], [])
    {
      m, inflight, fetches := map[], map[], [];
    }

    method LookUpLocked(url: string, now: nat) returns (found: Found)
      modifies this
      ensures (Value(), found) == LookUp(old(Value()), url, now)
    {
      var cached: Option<Links> := None;
      if url in m {
        if now - m[url].fetchedAt < TTL {
          return Hit(m[url]);
        }
        cached := Some(m[url].links);
      }
      if url in inflight {
        return Join(inflight[url]);
      }
      found := Lead(|fetches|, cached);
      inflight := inflight[url := |fetches|];
      fetches := fetches + [Fetch(url, [], false)];
    }

    /** The scan of one eviction round, in whatever order the map is walked; the empty URL means none found. */
    method Oldest(keep: string) returns (oldestURL: string)
      requires "" !in m
      ensures oldestURL == "" <==> m.Keys <= {keep}
      ensures oldestURL != "" ==> oldestURL in m && oldestURL != keep
      ensures oldestURL != "" ==> forall u :: u in m && u != keep ==> m[oldestURL].fetchedAt <= m[u].fetchedAt
    {
      oldestURL := "";
      var oldest := 0;
      var todo := m.Keys;
      while todo != {}
        invariant todo <= m.Keys
        invariant oldestURL == "" <==> m.Keys - todo <= {keep}
        invariant oldestURL != "" ==> oldestURL in m && oldestURL != keep && oldest == m[oldestURL].fetchedAt
        invariant oldestURL != "" ==> forall u :: u in m.Keys - todo && u != keep ==> oldest <= m[u].fetchedAt
        decreases todo
      {
        ghost var before := todo;
        var rawURL :| rawURL in todo;
        todo := todo - {rawURL};
        assert m.Keys - todo == m.Keys - before + {rawURL};
        if rawURL == keep {
          continue;
        }
        if oldestURL == "" || m[rawURL].fetchedAt < oldest {
          oldestURL, oldest := rawURL, m[rawURL].fetchedAt;
        }
      }
    }

    method TrimLocked(keep: string)
      requires "" !in m
      modifies this`m
      ensures Trimmed(old(m), keep, m)
    {
      while |m| > CAPACITY
        invariant m.Keys <= old(m).Keys && forall u :: u in m ==> m[u] == old(m)[u]
        invariant keep in old(m) ==> keep in m
        invariant |old(m)| <= CAPACITY ==> m == old(m)
        invariant |old(m)| > CAPACITY ==> |m| >= CAPACITY
        invariant forall x, y :: x in old(m) && x !in m && y in m && y != keep ==>
          old(m)[x].fetchedAt <= old(m)[y].fetchedAt
        decreases |m|
      {
        BiggerThan(m, keep);
        var oldestURL := Oldest(keep);
        if oldestURL == "" {
          return;
        }
        ShrinkCache(m, oldestURL);
        m := m - {oldestURL};
      }
    }

    method StoreLocked(url: string, links: Links, now: nat)
      requires "" !in m && url != ""
      modifies this`m
      ensures Trimmed(old(m)[url := Entry(links, now)], url, m)
    {
      m := m[url := Entry(links, now)];
      TrimLocked(url);
    }

    method CloseLocked(f: nat)
      requires f < |fetches|
      modifies this
      ensures Value() == Close(old(Value()), f)
    {
      inflight := inflight - {fetches[f].url};
      fetches := fetches[f := fetches[f].(done := true)];
    }
  }

  // ---------- calls interleaving between the critical sections ----------

  /** A call of fetchSubscriptionLinks, between two of its critical sections. */
  datatype Call =
    | Waiting(url: string, f: nat)
    | Fetching(url: string, f: nat, stale: Option<Links>)
    | Storing(url: string, f: nat, got: Links)
    | Finishing(url: string, f: nat, links: Links)
    | Served(url: string, entry: Entry, at: nat)
    | Answered(url: string, f: nat, links: Links)
    | Blank

  /** `stored` is the history of successful fetches: URL, links and time. */
  datatype World = World(shared: Shared, calls: map<nat, Call>, stored: set<(string, Links, nat)>, now: nat)

  datatype Event =
    | Tick(seconds: nat)
    | Enter(t: nat, url: string)            // with the URL already trimmed of white space
    | Fetched(t: nat, got: Option<Links>)   // the HTTP request of a leader ends
    | Store(t: nat, left: map<string, Entry>)
    | Finish(t: nat)
    | Wake(t: nat)

  const START := World(Shared(map[], map[], []), map[], {}, 0)

  ghost predicate Possible(w: World, e: Event) {
    match e
    case Tick(_) => true
    case Enter(t, _) => t !in w.calls
    case Fetched(t, _) => t in w.calls && w.calls[t].Fetching? && w.calls[t].f < |w.shared.fetches|
    case Store(t, left) =>
      && t in w.calls && w.calls[t].Storing? && w.calls[t].f < |w.shared.fetches|
      && Trimmed(w.shared.cache[w.calls[t].url := Entry(w.calls[t].got, w.now)], w.calls[t].url, left)
    case Finish(t) => t in w.calls && w.calls[t].Finishing? && w.calls[t].f < |w.shared.fetches|
    case Wake(t) =>
      && t in w.calls && w.calls[t].Waiting? && w.calls[t].f < |w.shared.fetches|
      && w.shared.fetches[w.calls[t].f].done
  }

  function OnFound(url: string, found: Found, now: nat): Call {
    match found
    case Hit(entry) => Served(url, entry, now)
    case Join(f) => Waiting(url, f)
    case Lead(f, stale) => Fetching(url, f, stale)
  }

  ghost function Step(w: World, e: Event): World
    requires Possible(w, e)
  {
    match e
    case Tick(seconds) => w.(now := w.now + seconds)
    case Enter(t, url) =>
      if url == "" then w.(calls := w.calls[t := Blank]) else
        var (shared, found) := LookUp(w.shared, url, w.now);
        w.(shared := shared, calls := w.calls[t := OnFound(url, found, w.now)])
    case Fetched(t, got) =>
      var c := w.calls[t];
      (match got
       case Some(links) => w.(calls := w.calls[t := Storing(c.url, c.f, links)])
       case None =>
         match c.stale
         case Some(links) =>
           w.(shared := Landed(w.shared, c.f, links), calls := w.calls[t := Finishing(c.url, c.f, links)])
         case None => w.(calls := w.calls[t := Finishing(c.url, c.f, [])]))
    case Store(t, left) =>
      var c := w.calls[t];
      w.(shared := Landed(w.shared, c.f, c.got).(cache := left),
         calls := w.calls[t := Finishing(c.url, c.f, c.got)],
         stored := w.stored + {(c.url, c.got, w.now)})
    case Finish(t) =>
      var c := w.calls[t];
      w.(shared := Close(w.shared, c.f), calls := w.calls[t := Answered(c.url, c.f, w.shared.fetches[c.f].links)])
    case Wake(t) =>
      var c := w.calls[t];
      w.(calls := w.calls[t := Answered(c.url, c.f, w.shared.fetches[c.f].links)])
  }

  ghost predicate Run(events: seq<Event>, w: World)
    decreases |events|
  {
    if events == [] then w == START else
      var n := |events| - 1;
      exists before :: Run(events[..n], before) && Possible(before, events[n]) && w == Step(before, events[n])
  }

  // ---------- the invariant ----------

  /** The links came from an earlier successful fetch of this URL. */
  ghost predicate Genuine(stored: set<(string, Links, nat)>, url: string, links: Links) {
    links == [] || exists at :: (url, links, at) in stored
  }

  ghost predicate CacheOk(w: World) {
    && |w.shared.cache| <= CAPACITY && "" !in w.shared.cache
    && (forall u :: u in w.shared.cache ==>
          (u, w.shared.cache[u].links, w.shared.cache[u].fetchedAt) in w.stored && w.shared.cache[u].fetchedAt <= w.now)
  }

  /** The in-flight map lists exactly the flights not yet closed, each under its own URL. */
  ghost predicate FlightsOk(w: World) {
    && (forall u :: u in w.shared.inflight ==>
          && w.shared.inflight[u] < |w.shared.fetches|
          && w.shared.fetches[w.shared.inflight[u]].url == u && !w.shared.fetches[w.shared.inflight[u]].done)
    && (forall f :: 0 <= f < |w.shared.fetches| && !w.shared.fetches[f].done ==>
          w.shared.fetches[f].url in w.shared.inflight && w.shared.inflight[w.shared.fetches[f].url] == f)
    && (forall f :: 0 <= f < |w.shared.fetches| ==>
          w.shared.fetches[f].url != "" && Genuine(w.stored, w.shared.fetches[f].url, w.shared.fetches[f].links))
  }

  predicate Leads(c: Call) {
    c.Fetching? || c.Storing? || c.Finishing?
  }

  ghost predicate CallOk(w: World, c: Call) {
    && (c.Served? ==> (c.url, c.entry.links, c.entry.fetchedAt) in w.stored)
    && (c.Served? ==> c.entry.fetchedAt <= c.at < c.entry.fetchedAt + TTL)
    && (!c.Served? && !c.Blank? ==> c.f < |w.shared.fetches| && w.shared.fetches[c.f].url == c.url)
    && (Leads(c) ==> !w.shared.fetches[c.f].done)
    && (c.Fetching? ==> w.shared.fetches[c.f].links == [])
    && (c.Finishing? ==> w.shared.fetches[c.f].links == c.links)
    && (c.Fetching? && c.stale.Some? ==> Genuine(w.stored, c.url, c.stale.value))
    && (c.Answered? ==> w.shared.fetches[c.f].done && w.shared.fetches[c.f].links == c.links)
  }

  ghost predicate OneLeader(calls: map<nat, Call>) {
    forall s, t :: s in calls && t in calls && Leads(calls[s]) && Leads(calls[t]) && calls[s].f == calls[t].f ==> s == t
  }

  ghost predicate Good(w: World) {
    && CacheOk(w) && FlightsOk(w) && OneLeader(w.calls)
    && forall t :: t in w.calls ==> CallOk(w, w.calls[t])
  }

  lemma TickKeepsGood(w: World, e: Event)
    requires Good(w) && Possible(w, e) && e.Tick?
    ensures Good(Step(w, e))
  {
    forall t | t in w.calls ensures CallOk(Step(w, e), w.calls[t]) { assert CallOk(w, w.calls[t]); }
  }

  /** A call that leads nothing joins the others. */
  lemma NewcomerKeepsGood(w: World, t: nat, c: Call)
    requires Good(w) && t !in w.calls && !Leads(c) && CallOk(w, c)
    ensures Good(w.(calls := w.calls[t := c]))
  {
    var v := w.(calls := w.calls[t := c]);
    assert CallOk(v, c);
    forall s | s in v.calls ensures CallOk(v, v.calls[s]) {
      if s != t { assert CallOk(w, w.calls[s]); }
    }
  }

  /** A new flight under a URL that has none. */
  lemma NewFlightKeepsFlights(w: World, t: nat, url: string)
    requires FlightsOk(w) && t !in w.calls && url != "" && url !in w.shared.inflight
    requires LookUp(w.shared, url, w.now).1.Lead?
    ensures FlightsOk(Step(w, Enter(t, url)))
  {
    var v := Step(w, Enter(t, url));
    assert v.shared.fetches == w.shared.fetches + [Fetch(url, [], false)];
    assert v.shared.inflight == w.shared.inflight[url := |w.shared.fetches|];
  }

  lemma LeaderKeepsGood(w: World, t: nat, url: string)
    requires Good(w) && t !in w.calls && url != "" && url !in w.shared.inflight
    requires LookUp(w.shared, url, w.now).1.Lead?
    ensures Good(Step(w, Enter(t, url)))
  {
    var v, f := Step(w, Enter(t, url)), |w.shared.fetches|;
    NewFlightKeepsFlights(w, t, url);
    forall s | s in v.calls ensures CallOk(v, v.calls[s]) && (s != t && Leads(v.calls[s]) ==> v.calls[s].f != f) {
      if s != t {
        assert CallOk(w, w.calls[s]);
        LaterFlightKeepsCall(w, v, w.calls[s]);
      }
    }
  }

  lemma LaterFlightKeepsCall(w: World, v: World, c: Call)
    requires CallOk(w, c) && v.stored == w.stored && |w.shared.fetches| <= |v.shared.fetches|
    requires v.shared.fetches[..|w.shared.fetches|] == w.shared.fetches
    ensures CallOk(v, c)
  {
    if !c.Served? && !c.Blank? { assert v.shared.fetches[c.f] == v.shared.fetches[..|w.shared.fetches|][c.f]; }
  }

  lemma EnterKeepsGood(w: World, e: Event)
    requires Good(w) && Possible(w, e) && e.Enter?
    ensures Good(Step(w, e))
  {
    var found := LookUp(w.shared, e.url, w.now).1;
    if e.url == "" {
      NewcomerKeepsGood(w, e.t, Blank);
    } else if found.Lead? {
      LeaderKeepsGood(w, e.t, e.url);
    } else {
      NewcomerKeepsGood(w, e.t, OnFound(e.url, found, w.now));
    }
  }

  /** A leader goes on to its next section. */
  lemma MoveKeepsGood(w: World, t: nat, c: Call)
    requires Good(w) && t in w.calls && Leads(w.calls[t]) && Leads(c) && c.f == w.calls[t].f && CallOk(w, c)
    ensures Good(w.(calls := w.calls[t := c]))
  {
    var v := w.(calls := w.calls[t := c]);
    assert CallOk(v, c);
    forall s | s in v.calls ensures CallOk(v, v.calls[s]) {
      if s != t { assert CallOk(w, w.calls[s]); }
    }
  }

  lemma LandKeepsFlights(w: World, f: nat, links: Links, calls: map<nat, Call>)
    requires FlightsOk(w) && f < |w.shared.fetches| && Genuine(w.stored, w.shared.fetches[f].url, links)
    ensures FlightsOk(w.(shared := Landed(w.shared, f, links), calls := calls))
  {}

  /** Calls of other flights do not see it, and no call of this flight but its leader holds links yet. */
  lemma LandKeepsCall(w: World, v: World, f: nat, links: Links, c: Call)
    requires CallOk(w, c) && f < |w.shared.fetches| && !w.shared.fetches[f].done
    requires v.shared == Landed(w.shared, f, links) && v.stored == w.stored
    requires Leads(c) ==> c.f != f
    ensures CallOk(v, c)
  {}

  /** A leader puts its links down in its flight. */
  lemma LandKeepsGood(w: World, t: nat, links: Links)
    requires Good(w) && t in w.calls && Leads(w.calls[t]) && w.calls[t].f < |w.shared.fetches|
    requires Genuine(w.stored, w.calls[t].url, links)
    ensures var c := w.calls[t];
      Good(w.(shared := Landed(w.shared, c.f, links), calls := w.calls[t := Finishing(c.url, c.f, links)]))
  {
    var c := w.calls[t];
    var v := w.(shared := Landed(w.shared, c.f, links), calls := w.calls[t := Finishing(c.url, c.f, links)]);
    assert CallOk(w, c);
    LandKeepsFlights(w, c.f, links, v.calls);
    forall s | s in v.calls ensures CallOk(v, v.calls[s]) {
      if s != t {
        assert CallOk(w, w.calls[s]);
        LandKeepsCall(w, v, c.f, links, w.calls[s]);
      }
    }
  }

  lemma FetchedKeepsGood(w: World, e: Event)
    requires Good(w) && Possible(w, e) && e.Fetched?
    ensures Good(Step(w, e))
  {
    var c := w.calls[e.t];
    assert CallOk(w, c);
    match e.got
    case Some(links) => MoveKeepsGood(w, e.t, Storing(c.url, c.f, links));
    case None =>
      match c.stale
      case Some(links) => LandKeepsGood(w, e.t, links);
      case None => MoveKeepsGood(w, e.t, Finishing(c.url, c.f, []));
  }

  lemma HistoryKeepsGood(w: World, x: (string, Links, nat))
    requires Good(w)
    ensures Good(w.(stored := w.stored + {x}))
  {
    var v := w.(stored := w.stored + {x});
    forall u, links | Genuine(w.stored, u, links) ensures Genuine(v.stored, u, links) {}
    forall s | s in v.calls ensures CallOk(v, v.calls[s]) {
      assert CallOk(w, w.calls[s]);
    }
  }

  lemma CacheKeepsGood(w: World, left: map<string, Entry>)
    requires Good(w) && CacheOk(w.(shared := w.shared.(cache := left)))
    ensures Good(w.(shared := w.shared.(cache := left)))
  {
    var v := w.(shared := w.shared.(cache := left));
    forall s | s in v.calls ensures CallOk(v, v.calls[s]) {
      assert CallOk(w, w.calls[s]);
    }
  }

  lemma StoreKeepsGood(w: World, e: Event)
    requires Good(w) && Possible(w, e) && e.Store?
    ensures Good(Step(w, e))
  {
    var c := w.calls[e.t];
    assert CallOk(w, c);
    var known := w.(stored := w.stored + {(c.url, c.got, w.now)});
    HistoryKeepsGood(w, (c.url, c.got, w.now));
    assert (c.url, c.got, w.now) in known.stored;
    LandKeepsGood(known, e.t, c.got);
    var landed := known.(shared := Landed(w.shared, c.f, c.got), calls := w.calls[e.t := Finishing(c.url, c.f, c.got)]);
    StoredCacheIsOk(w, e);
    CacheKeepsGood(landed, e.left);
  }

  lemma StoredCacheIsOk(w: World, e: Event)
    requires CacheOk(w) && Possible(w, e) && e.Store? && w.calls[e.t].url != ""
    ensures CacheOk(Step(w, e))
  {
    var c, v := w.calls[e.t], Step(w, e);
    assert (c.url, c.got, w.now) in v.stored;
  }

  lemma CloseKeepsFlights(w: World, e: Event)
    requires FlightsOk(w) && Possible(w, e) && e.Finish? && !w.shared.fetches[w.calls[e.t].f].done
    ensures FlightsOk(Step(w, e))
  {}

  lemma CloseKeepsCall(w: World, v: World, f: nat, c: Call)
    requires CallOk(w, c) && f < |w.shared.fetches| && !w.shared.fetches[f].done
    requires v.shared == Close(w.shared, f) && v.stored == w.stored
    requires Leads(c) ==> c.f != f
    ensures CallOk(v, c)
  {}

  lemma FinishKeepsGood(w: World, e: Event)
    requires Good(w) && Possible(w, e) && e.Finish?
    ensures Good(Step(w, e))
  {
    var v := Step(w, e);
    assert CallOk(w, w.calls[e.t]);
    CloseKeepsFlights(w, e);
    forall t | t in v.calls ensures CallOk(v, v.calls[t]) {
      if t != e.t {
        assert CallOk(w, w.calls[t]);
        CloseKeepsCall(w, v, w.calls[e.t].f, w.calls[t]);
      }
    }
  }

  lemma WakeKeepsGood(w: World, e: Event)
    requires Good(w) && Possible(w, e) && e.Wake?
    ensures Good(Step(w, e))
  {
    var v := Step(w, e);
    forall t | t in v.calls ensures CallOk(v, v.calls[t]) {
      assert CallOk(w, w.calls[t]);
    }
  }

  lemma {:induction false} EveryRunIsGood(events: seq<Event>, w: World)
    requires Run(events, w)
    ensures Good(w)
    decreases |events|
  {
    if events != [] {
      var n := |events| - 1;
      var e := events[n];
      var before :| Run(events[..n], before) && Possible(before, e) && w == Step(before, e);
      EveryRunIsGood(events[..n], before);
      if e.Tick? { TickKeepsGood(before, e); }
      else if e.Enter? { EnterKeepsGood(before, e); }
      else if e.Fetched? { FetchedKeepsGood(before, e); }
      else if e.Store? { StoreKeepsGood(before, e); }
      else if e.Finish? { FinishKeepsGood(before, e); }
      else { WakeKeepsGood(before, e); }
    }
  }

  // ---------- what a caller gets ----------

  /** The links a finished call returns. */
  function Result(c: Call): Links
    requires c.Served? || c.Answered? || c.Blank?
  {
    match c
    case Served(_, entry, _) => entry.links
    case Answered(_, _, links) => links
    case Blank => []
  }

  /** In every run, no two calls fetch the same URL at once. */
  lemma OneFlightPerUrl(events: seq<Event>, w: World, s: nat, t: nat)
    requires Run(events, w) && s in w.calls && t in w.calls
    requires Leads(w.calls[s]) && Leads(w.calls[t]) && w.calls[s].url == w.calls[t].url
    ensures s == t
  {
    EveryRunIsGood(events, w);
    assert CallOk(w, w.calls[s]) && CallOk(w, w.calls[t]);
  }

  /** In every run the cache is within bounds, and every entry in it is the outcome of a successful fetch of its URL. */
  lemma CacheStaysBounded(events: seq<Event>, w: World)
    requires Run(events, w)
    ensures |w.shared.cache| <= 256 && "" !in w.shared.cache
    ensures forall u :: u in w.shared.cache ==>
      (u, w.shared.cache[u].links, w.shared.cache[u].fetchedAt) in w.stored && w.shared.cache[u].fetchedAt <= w.now
  {
    EveryRunIsGood(events, w);
  }

  /** In every run, everyone who took part in a flight gets the same links, those of its leader. */
  lemma WaitersShareTheResult(events: seq<Event>, w: World, s: nat, t: nat)
    requires Run(events, w) && s in w.calls && t in w.calls
    requires w.calls[s].Answered? && w.calls[t].Answered? && w.calls[s].f == w.calls[t].f
    ensures w.calls[s].links == w.calls[t].links && w.calls[s].url == w.calls[t].url
  {
    EveryRunIsGood(events, w);
    assert CallOk(w, w.calls[s]) && CallOk(w, w.calls[t]);
  }

  /** In every run, what a call returns for a URL is nothing or the outcome of an earlier successful fetch of that
      same URL; straight from the cache it is less than the time to live old. */
  lemma ResultsAreGenuine(events: seq<Event>, w: World, t: nat)
    requires Run(events, w) && t in w.calls && (w.calls[t].Served? || w.calls[t].Answered?)
    ensures Genuine(w.stored, w.calls[t].url, Result(w.calls[t]))
    ensures w.calls[t].Served? ==>
      exists at :: (w.calls[t].url, Result(w.calls[t]), at) in w.stored && at <= w.calls[t].at < at + TTL
  {
    EveryRunIsGood(events, w);
    assert CallOk(w, w.calls[t]);
  }

  /** A leader with its links in hand can always finish, and then returns them. */
  lemma LeaderCanFinish(events: seq<Event>, w: World, t: nat)
    requires Run(events, w) && t in w.calls && w.calls[t].Finishing?
    ensures Possible(w, Finish(t))
    ensures Step(w, Finish(t)).calls[t] == Answered(w.calls[t].url, w.calls[t].f, w.calls[t].links)
  {
    EveryRunIsGood(events, w);
    assert CallOk(w, w.calls[t]);
  }

  // ---------- what is cached is served ----------

  /** A call finds the live entry of its URL, under five minutes old; failing that the flight under way; failing that it
      takes off itself, with the old links to fall back on. Only then does it change anything. */
  lemma EntersExactly(w: World, t: nat, url: string)
    requires Possible(w, Enter(t, url)) && url != ""
    ensures var cache, v := w.shared.cache, Step(w, Enter(t, url));
      if url in cache && w.now < cache[url].fetchedAt + 300 then
        v.calls[t] == Served(url, cache[url], w.now) && v.shared == w.shared
      else if url in w.shared.inflight then
        v.calls[t] == Waiting(url, w.shared.inflight[url]) && v.shared == w.shared
      else
        && v.calls[t] == Fetching(url, |w.shared.fetches|, if url in cache then Some(cache[url].links) else None)
        && v.shared.cache == cache && v.shared.inflight == w.shared.inflight[url := |w.shared.fetches|]
  {}

  /** Storing evicts an entry only when there would be more than 256, and never the one stored. */
  lemma EvictedOnlyWhenFull(w: World, e: Event, u: string)
    requires Possible(w, e) && e.Store? && u in w.shared.cache && u !in Step(w, e).shared.cache
    ensures u != w.calls[e.t].url && |w.shared.cache[w.calls[e.t].url := Entry(w.calls[e.t].got, w.now)]| > 256
  {}

  /** The cache holds this entry, and nobody is about to replace it. */
  ghost predicate Settled(w: World, url: string, entry: Entry) {
    && url in w.shared.cache && w.shared.cache[url] == entry
    && forall t :: t in w.calls && Leads(w.calls[t]) && w.calls[t].url == url ==> w.calls[t].Finishing?
  }

  lemma StoringSettles(events: seq<Event>, w: World, e: Event)
    requires Run(events, w) && Possible(w, e) && e.Store?
    ensures Settled(Step(w, e), w.calls[e.t].url, Entry(w.calls[e.t].got, w.now))
  {
    var v, url := Step(w, e), w.calls[e.t].url;
    forall t | t in v.calls && Leads(v.calls[t]) && v.calls[t].url == url ensures v.calls[t].Finishing? {
      if t != e.t { OneFlightPerUrl(events, w, t, e.t); }
    }
  }

  lemma StepKeepsSettled(w: World, e: Event, url: string, entry: Entry)
    requires Settled(w, url, entry) && Possible(w, e) && w.now < entry.fetchedAt + 300
    requires url in Step(w, e).shared.cache
    ensures Settled(Step(w, e), url, entry)
  {
    var v := Step(w, e);
    forall t | t in v.calls && Leads(v.calls[t]) && v.calls[t].url == url ensures v.calls[t].Finishing? {
      if t in w.calls && v.calls[t] == w.calls[t] { assert w.calls[t].Finishing?; }
    }
  }

  lemma {:induction false} RunsAreDetermined(events: seq<Event>, v: World, w: World)
    requires Run(events, v) && Run(events, w)
    ensures v == w
    decreases |events|
  {
    if events != [] {
      var n := |events| - 1;
      var a :| Run(events[..n], a) && Possible(a, events[n]) && v == Step(a, events[n]);
      var b :| Run(events[..n], b) && Possible(b, events[n]) && w == Step(b, events[n]);
      RunsAreDetermined(events[..n], a, b);
    }
  }

  /** The URL has been in the cache in every state since the event `i`. */
  ghost predicate CachedSince(events: seq<Event>, i: nat, url: string) {
    forall j, v :: i < j <= |events| && Run(events[..j], v) ==> url in v.shared.cache
  }

  lemma CachedBefore(events: seq<Event>, i: nat, n: nat, url: string)
    requires CachedSince(events, i, url) && i < n <= |events|
    ensures CachedSince(events[..n], i, url)
  {
    forall j, v | i < j <= n && Run(events[..n][..j], v) ensures url in v.shared.cache {
      assert events[..n][..j] == events[..j];
    }
  }

  ghost predicate SettledInTime(w: World, url: string, entry: Entry) {
    w.now < entry.fetchedAt + 300 ==> Settled(w, url, entry)
  }

  lemma StepKeepsInTime(before: World, e: Event, w: World, url: string, entry: Entry)
    requires Possible(before, e) && w == Step(before, e) && url in w.shared.cache
    requires SettledInTime(before, url, entry)
    ensures SettledInTime(w, url, entry)
  {
    if w.now < entry.fetchedAt + 300 { StepKeepsSettled(before, e, url, entry); }
  }

  lemma {:induction false} StaysSettled(events: seq<Event>, w: World, i: nat, url: string, entry: Entry)
    requires Run(events, w) && i < |events| && CachedSince(events, i, url)
    requires forall v :: Run(events[..i + 1], v) ==> SettledInTime(v, url, entry)
    ensures SettledInTime(w, url, entry)
    decreases |events|
  {
    assert events[..|events|] == events;
    if i + 1 < |events| {
      var n := |events| - 1;
      var before :| Run(events[..n], before) && Possible(before, events[n]) && w == Step(before, events[n]);
      assert events[..n][..i + 1] == events[..i + 1];
      CachedBefore(events, i, n, url);
      StaysSettled(events[..n], before, i, url, entry);
      StepKeepsInTime(before, events[n], w, url, entry);
    }
  }

  lemma SettledAfter(events: seq<Event>, i: nat, at: World, v: World)
    requires i < |events| && Run(events[..i], at) && Possible(at, events[i]) && events[i].Store?
    requires Run(events[..i + 1], v)
    ensures Settled(v, at.calls[events[i].t].url, Entry(at.calls[events[i].t].got, at.now))
  {
    assert events[..i + 1][..i] == events[..i];
    var before :| Run(events[..i], before) && Possible(before, events[i]) && v == Step(before, events[i]);
    RunsAreDetermined(events[..i], before, at);
    StoringSettles(events[..i], at, events[i]);
  }

  lemma StoredUrl(events: seq<Event>, w: World, e: Event)
    requires Run(events, w) && Possible(w, e) && e.Store?
    ensures w.calls[e.t].url != ""
  {
    EveryRunIsGood(events, w);
    assert CallOk(w, w.calls[e.t]);
  }

  /** In every run, links that a call stored are what every call for the same URL gets in the next five minutes, at once
      and without a request of its own, for as long as the cache keeps the URL. */
  lemma StoredIsServed(events: seq<Event>, w: World, i: nat, at: World, t: nat)
    requires Run(events, w) && i < |events| && Run(events[..i], at) && Possible(at, events[i]) && events[i].Store?
    requires CachedSince(events, i, at.calls[events[i].t].url) && w.now < at.now + 300
    requires t !in w.calls
    ensures var c := at.calls[events[i].t]; var v := Step(w, Enter(t, c.url));
      v.calls[t].Served? && Result(v.calls[t]) == c.got && v.shared == w.shared
  {
    var c := at.calls[events[i].t];
    forall v | Run(events[..i + 1], v) ensures Settled(v, c.url, Entry(c.got, at.now)) {
      SettledAfter(events, i, at, v);
    }
    StaysSettled(events, w, i, c.url, Entry(c.got, at.now));
    StoredUrl(events[..i], at, events[i]);
    EntersExactly(w, t, c.url);
  }

  // ---------- what a leader returns ----------

  /** How the call's own request ended, if it made one and it has ended. */
  function Request(events: seq<Event>, t: nat): Option<Option<Links>> {
    if events == [] then None else
      var e := events[|events| - 1];
      if e.Fetched? && e.t == t then Some(e.got) else Request(events[..|events| - 1], t)
  }

  /** When the call entered for this URL, these were the links in the cache. */
  ghost predicate SawOnEntry(events: seq<Event>, t: nat, url: string, stale: Option<Links>) {
    exists i, before ::
      && 0 <= i < |events| && events[i] == Enter(t, url) && Run(events[..i], before)
      && stale == if url in before.shared.cache then Some(before.shared.cache[url].links) else None
  }

  function OrNothing(links: Option<Links>): Links {
    match links
    case Some(l) => l
    case None => []
  }

  /** The links a request brought, or after a failure those the call saw on entry, or nothing. */
  ghost predicate ItsOutcome(events: seq<Event>, t: nat, url: string, links: Links) {
    match Request(events, t)
    case None => false
    case Some(Some(got)) => links == got
    case Some(None) => exists stale :: SawOnEntry(events, t, url, stale) && links == OrNothing(stale)
  }

  /** How far each call has come, told from the events alone. */
  ghost predicate Told(events: seq<Event>, calls: map<nat, Call>, t: nat) {
    if t !in calls then Request(events, t) == None else
      var c := calls[t];
      && (c.Fetching? ==> Request(events, t) == None && SawOnEntry(events, t, c.url, c.stale))
      && (c.Storing? ==> Request(events, t) == Some(Some(c.got)))
      && (c.Finishing? ==> ItsOutcome(events, t, c.url, c.links))
      && (c.Answered? && Request(events, t) != None ==> ItsOutcome(events, t, c.url, c.links))
      && (c.Waiting? || c.Served? || c.Blank? ==> Request(events, t) == None)
  }

  /** An event of another call tells nothing new about this one. */
  lemma OthersTellNothing(events: seq<Event>, calls: map<nat, Call>, e: Event, t: nat)
    requires Told(events, calls, t) && !(e.Fetched? && e.t == t)
    ensures Told(events + [e], calls, t)
  {
    var more := events + [e];
    assert more[..|events|] == events;
    forall url, stale | SawOnEntry(events, t, url, stale) ensures SawOnEntry(more, t, url, stale) {
      var i, before :| 0 <= i < |events| && events[i] == Enter(t, url) && Run(events[..i], before)
        && stale == if url in before.shared.cache then Some(before.shared.cache[url].links) else None;
      assert more[..i] == events[..i] && more[i] == Enter(t, url);
    }
  }

  lemma EntryIsTold(events: seq<Event>, w: World, e: Event)
    requires Run(events, w) && Possible(w, e) && e.Enter? && Told(events, w.calls, e.t)
    ensures Told(events + [e], Step(w, e).calls, e.t)
  {
    var more := events + [e];
    assert more[..|events|] == events && more[|events|] == Enter(e.t, e.url);
    assert Request(more, e.t) == None;
    if e.url != "" && LookUp(w.shared, e.url, w.now).1.Lead? {
      assert SawOnEntry(more, e.t, e.url, LookUp(w.shared, e.url, w.now).1.stale);
    }
  }

  lemma FetchIsTold(events: seq<Event>, w: World, e: Event)
    requires Possible(w, e) && e.Fetched? && Told(events, w.calls, e.t)
    ensures Told(events + [e], Step(w, e).calls, e.t)
  {
    var more, c := events + [e], w.calls[e.t];
    assert more[..|events|] == events && Request(more, e.t) == Some(e.got);
    assert SawOnEntry(more, e.t, c.url, c.stale) by {
      OthersTellNothing(events, w.calls, Tick(0), e.t);
      var i, before :| 0 <= i < |events| && events[i] == Enter(e.t, c.url) && Run(events[..i], before)
        && c.stale == if c.url in before.shared.cache then Some(before.shared.cache[c.url].links) else None;
      assert more[..i] == events[..i] && more[i] == Enter(e.t, c.url);
    }
  }

  /** The later steps of the call itself. */
  lemma OwnStepIsTold(events: seq<Event>, w: World, e: Event)
    requires Good(w) && Possible(w, e) && (e.Store? || e.Finish? || e.Wake?) && Told(events, w.calls, e.t)
    ensures Told(events + [e], Step(w, e).calls, e.t)
  {
    OthersTellNothing(events, w.calls, e, e.t);
    assert CallOk(w, w.calls[e.t]);
  }

  predicate Concerns(e: Event, t: nat) {
    !e.Tick? && e.t == t
  }

  lemma OthersStay(w: World, e: Event, t: nat)
    requires Possible(w, e) && !Concerns(e, t)
    ensures t in Step(w, e).calls <==> t in w.calls
    ensures t in w.calls ==> Step(w, e).calls[t] == w.calls[t]
  {}

  /** The step of the call itself, or of another. */
  lemma StepIsTold(events: seq<Event>, w: World, e: Event, t: nat)
    requires Run(events, w) && Good(w) && Possible(w, e) && Told(events, w.calls, t)
    ensures Told(events + [e], Step(w, e).calls, t)
  {
    if !Concerns(e, t) {
      OthersTellNothing(events, w.calls, e, t);
      OthersStay(w, e, t);
    } else if e.Enter? {
      EntryIsTold(events, w, e);
    } else if e.Fetched? {
      FetchIsTold(events, w, e);
    } else {
      OwnStepIsTold(events, w, e);
    }
  }

  lemma {:induction false} EveryRunIsTold(events: seq<Event>, w: World, t: nat)
    requires Run(events, w)
    ensures Told(events, w.calls, t)
    decreases |events|
  {
    if events != [] {
      var n := |events| - 1;
      var before :| Run(events[..n], before) && Possible(before, events[n]) && w == Step(before, events[n]);
      EveryRunIsTold(events[..n], before, t);
      EveryRunIsGood(events[..n], before);
      StepIsTold(events[..n], before, events[n], t);
      assert events[..n] + [events[n]] == events;
    }
  }

  /** In every run, a call that made a request of its own returns what that request brought, whatever happened in the
      meantime: the links it fetched, or after a failure those cached when it entered, or nothing. */
  lemma LeaderReturnsItsOutcome(events: seq<Event>, w: World, t: nat)
    requires Run(events, w) && t in w.calls && w.calls[t].Answered? && Request(events, t) != None
    ensures ItsOutcome(events, t, w.calls[t].url, w.calls[t].links)
  {
    EveryRunIsTold(events, w, t);
  }

  // ---------- nobody waits for a flight without a pilot ----------

  ghost predicate HasLeader(calls: map<nat, Call>, f: nat) {
    exists t :: t in calls && Leads(calls[t]) && calls[t].f == f
  }

  ghost predicate AllLed(w: World) {
    forall f :: 0 <= f < |w.shared.fetches| && !w.shared.fetches[f].done ==> HasLeader(w.calls, f)
  }

  /** A leader leads on, until it closes its flight. */
  lemma LeaderStays(w: World, e: Event, t: nat)
    requires Possible(w, e) && t in w.calls && Leads(w.calls[t])
    requires !(e.Finish? && e.t == t)
    ensures t in Step(w, e).calls && Leads(Step(w, e).calls[t]) && Step(w, e).calls[t].f == w.calls[t].f
  {}

  lemma StepKeepsLed(w: World, e: Event, f: nat)
    requires AllLed(w) && Possible(w, e)
    requires f < |w.shared.fetches| && !w.shared.fetches[f].done && !(e.Finish? && w.calls[e.t].f == f)
    ensures HasLeader(Step(w, e).calls, f)
  {
    assert HasLeader(w.calls, f);
    var t :| t in w.calls && Leads(w.calls[t]) && w.calls[t].f == f;
    LeaderStays(w, e, t);
  }

  /** A flight open after a step was open before it, or is the one the step began. */
  lemma OpenFlights(w: World, e: Event, f: nat)
    requires Possible(w, e)
    requires f < |Step(w, e).shared.fetches| && !Step(w, e).shared.fetches[f].done
    ensures if f < |w.shared.fetches| then !w.shared.fetches[f].done && !(e.Finish? && w.calls[e.t].f == f)
            else HasLeader(Step(w, e).calls, f)
  {
    if f == |w.shared.fetches| {
      assert Leads(Step(w, e).calls[e.t]);
    }
  }

  lemma {:induction false} EveryFlightIsLed(events: seq<Event>, w: World)
    requires Run(events, w)
    ensures AllLed(w)
    decreases |events|
  {
    if events != [] {
      var n := |events| - 1;
      var before :| Run(events[..n], before) && Possible(before, events[n]) && w == Step(before, events[n]);
      EveryFlightIsLed(events[..n], before);
      forall f | 0 <= f < |w.shared.fetches| && !w.shared.fetches[f].done ensures HasLeader(w.calls, f) {
        OpenFlights(before, events[n], f);
        if f < |before.shared.fetches| { StepKeepsLed(before, events[n], f); }
      }
    }
  }

  /** In every run, whoever waits can either wake up now or waits for a call that is still at work. */
  lemma NoOrphanedWaiter(events: seq<Event>, w: World, t: nat)
    requires Run(events, w) && t in w.calls && w.calls[t].Waiting?
    ensures Possible(w, Wake(t)) || HasLeader(w.calls, w.calls[t].f)
  {
    EveryRunIsGood(events, w);
    EveryFlightIsLed(events, w);
    assert CallOk(w, w.calls[t]);
  }
}
