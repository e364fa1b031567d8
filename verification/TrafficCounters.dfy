/** Traffic accounting over cumulative counters that can restart, vanish and come back. */
module TrafficCounters {
  import opened Options

  /** The parts of a counter's name that the two name patterns pick out. */
  datatype StatName =
    | Handler(inbound: bool, tag: string, down: bool)
    | Client(email: string, down: bool)
    | Other(text: string)

  datatype Stat = Stat(name: StatName, value: nat)

  datatype Traffic = Traffic(isInbound: bool, isOutbound: bool, tag: string, up: int, down: int)

  datatype ClientTraffic = ClientTraffic(email: string, up: int, down: int)

  type Baselines = map<StatName, nat>

  /** What one counter accrued: an unseen counter and one that moved backwards count from zero. */
  function Delta(last: Baselines, s: Stat): nat {
    if s.name in last && s.value >= last[s.name] then s.value - last[s.name] else s.value
  }

  function Recorded(last: Baselines, stats: seq<Stat>): Baselines {
    if stats == [] then last else
      var s := stats[|stats| - 1];
      Recorded(last, stats[..|stats| - 1])[s.name := s.value]
  }

  /** The delta computed for the i-th counter of a response. */
  function DeltaAt(last: Baselines, stats: seq<Stat>, i: nat): nat
    requires i < |stats|
  {
    Delta(Recorded(last, stats[..i]), stats[i])
  }

  function PutTag(m: map<string, Traffic>, name: StatName, value: int): map<string, Traffic> {
    if !name.Handler? || name.tag == "api" then m else
      var t := if name.tag in m then m[name.tag] else Traffic(name.inbound, !name.inbound, name.tag, 0, 0);
      m[name.tag := if name.down then t.(down := value) else t.(up := value)]
  }

  function PutClient(m: map<string, ClientTraffic>, name: StatName, value: int): map<string, ClientTraffic> {
    if !name.Client? then m else
      var t := if name.email in m then m[name.email] else ClientTraffic(name.email, 0, 0);
      m[name.email := if name.down then t.(down := value) else t.(up := value)]
  }

  function TagMap(last: Baselines, stats: seq<Stat>): map<string, Traffic> {
    if stats == [] then map[] else
      var n := |stats| - 1;
      PutTag(TagMap(last, stats[..n]), stats[n].name, DeltaAt(last, stats, n))
  }

  function ClientMap(last: Baselines, stats: seq<Stat>): map<string, ClientTraffic> {
    if stats == [] then map[] else
      var n := |stats| - 1;
      PutClient(ClientMap(last, stats[..n]), stats[n].name, DeltaAt(last, stats, n))
  }

  function NamesOf(stats: seq<Stat>): set<StatName> {
    set s | s in stats :: s.name
  }

  /** Baselines of counters that are gone are dropped once they outnumber the live ones. */
  function Pruned(last: Baselines, stats: seq<Stat>): Baselines {
    if |stats| > 0 && |last| > 2 * |stats| then map n | n in NamesOf(stats) && n in last :: last[n] else last
  }

  function NextBaselines(last: Baselines, stats: seq<Stat>): Baselines {
    Pruned(Recorded(last, stats), stats)
  }

  class XrayApi {
    var statsLastValues: Baselines

    constructor ()
      ensures statsLastValues == map[]
    {
      statsLastValues := map[];
    }

    /** GetTraffic; `resp` is None when the query fails. The first pass records baselines only. */
    method GetTraffic(resp: Option<seq<Stat>>)
        returns (tags: map<string, Traffic>, clients: map<string, ClientTraffic>, ok: bool)
      modifies this
      ensures ok <==> resp.Some?
      ensures !ok ==> statsLastValues == old(statsLastValues)
      ensures ok ==> statsLastValues == NextBaselines(old(statsLastValues), resp.value)
      ensures tags == if ok && old(statsLastValues) != map[] then TagMap(old(statsLastValues), resp.value) else map[]
      ensures clients ==
        if ok && old(statsLastValues) != map[] then ClientMap(old(statsLastValues), resp.value) else map[]
    {
      tags, clients, ok := map[], map[], resp.Some?;
      if resp.None? {
        return;
      }
      var stats := resp.value;
      var baselinePass := |statsLastValues| == 0;
      ghost var last0 := statsLastValues;
      for i := 0 to |stats|
        invariant statsLastValues == Recorded(last0, stats[..i])
        invariant tags == if baselinePass then map[] else TagMap(last0, stats[..i])
        invariant clients == if baselinePass then map[] else ClientMap(last0, stats[..i])
      {
        OneCounterMore(last0, stats, i);
        var stat := stats[i];
        ghost var before := statsLastValues;
        var known := stat.name in statsLastValues;
        var lastValue := if known then statsLastValues[stat.name] else 0;
        statsLastValues := statsLastValues[stat.name := stat.value];
        if baselinePass {
          continue;
        }
        if !known || stat.value < lastValue {
          lastValue := 0;
        }
        var value := stat.value - lastValue;
        assert value == Delta(before, stat);
        if stat.name.Handler? {
          tags := PutTag(tags, stat.name, value);
        } else if stat.name.Client? {
          clients := PutClient(clients, stat.name, value);
        }
      }
      assert stats[..|stats|] == stats;
      PruneBaselines(stats, last0);
    }

    /** The last part of GetTraffic: rebuild the map once it has outgrown the live set. */
    method PruneBaselines(stats: seq<Stat>, ghost last0: Baselines)
      requires statsLastValues == Recorded(last0, stats)
      modifies this
      ensures statsLastValues == Pruned(old(statsLastValues), stats)
    {
      var n := |stats|;
      if n > 0 && |statsLastValues| > 2 * n {
        var pruned: Baselines := map[];
        for i := 0 to n
          invariant pruned.Keys == NamesOf(stats[..i])
          invariant forall k :: k in pruned ==> k in statsLastValues && pruned[k] == statsLastValues[k]
          invariant statsLastValues == old(statsLastValues)
        {
          RecordedHolds(last0, stats, i);
          assert stats[..i + 1] == stats[..i] + [stats[i]];
          pruned := pruned[stats[i].name := statsLastValues[stats[i].name]];
        }
        assert stats[..n] == stats;
        statsLastValues := pruned;
      }
    }
  }

  /** What the i-th counter of a response adds to the baselines and to the two maps. */
  lemma OneCounterMore(last: Baselines, stats: seq<Stat>, i: nat)
    requires i < |stats|
    ensures var (name, value) := (stats[i].name, Delta(Recorded(last, stats[..i]), stats[i]));
      && Recorded(last, stats[..i + 1]) == Recorded(last, stats[..i])[name := stats[i].value]
      && TagMap(last, stats[..i + 1]) ==
           (if name.Handler? then PutTag(TagMap(last, stats[..i]), name, value) else TagMap(last, stats[..i]))
      && ClientMap(last, stats[..i + 1]) ==
           (if name.Client? then PutClient(ClientMap(last, stats[..i]), name, value) else ClientMap(last, stats[..i]))
  {
    var more := stats[..i + 1];
    assert more[..i] == stats[..i] && more[i] == stats[i];
    assert DeltaAt(last, more, i) == DeltaAt(last, stats, i);
  }

  lemma {:induction false} RecordedHolds(last: Baselines, stats: seq<Stat>, i: nat)
    requires i < |stats|
    ensures stats[i].name in Recorded(last, stats)
  {
    var n := |stats| - 1;
    if i < n { RecordedHolds(last, stats[..n], i); }
  }

  // ---------- responses of a core: every live counter once ----------

  ghost predicate DistinctNames(stats: seq<Stat>) {
    forall i, j :: 0 <= i < j < |stats| ==> stats[i].name != stats[j].name
  }

  ghost predicate IsResponse(counters: Baselines, stats: seq<Stat>) {
    && DistinctNames(stats)
    && NamesOf(stats) == counters.Keys
    && forall s :: s in stats ==> s.name in counters && s.value == counters[s.name]
  }

  lemma NamesSnoc(stats: seq<Stat>)
    requires stats != []
    ensures NamesOf(stats) == NamesOf(stats[..|stats| - 1]) + {stats[|stats| - 1].name}
  {
    assert stats == stats[..|stats| - 1] + [stats[|stats| - 1]];
  }

  /** The baselines after a response: every listed counter at its value, and the rest as before. */
  ghost predicate Sets(now: Baselines, last: Baselines, stats: seq<Stat>) {
    && now.Keys == last.Keys + NamesOf(stats)
    && (forall i :: 0 <= i < |stats| ==> stats[i].name in now && now[stats[i].name] == stats[i].value)
    && (forall k :: k in last && k !in NamesOf(stats) ==> k in now && now[k] == last[k])
  }

  lemma SetsMore(now: Baselines, last: Baselines, init: seq<Stat>, s: Stat)
    requires Sets(now, last, init) && DistinctNames(init + [s])
    ensures Sets(now[s.name := s.value], last, init + [s])
  {
    NamesSnoc(init + [s]);
    assert (init + [s])[..|init|] == init;
    forall i | 0 <= i < |init| ensures init[i].name != s.name {
      assert (init + [s])[i] == init[i] && (init + [s])[|init|] == s;
    }
  }

  /** Recording a response sets every live counter and leaves the rest. */
  lemma {:induction false} RecordedIs(last: Baselines, stats: seq<Stat>)
    requires DistinctNames(stats)
    ensures Sets(Recorded(last, stats), last, stats)
  {
    if stats != [] {
      var init, s := stats[..|stats| - 1], stats[|stats| - 1];
      RecordedIs(last, init);
      assert stats == init + [s];
      SetsMore(Recorded(last, init), last, init, s);
    }
  }

  /** With distinct names the delta of a counter depends only on its own baseline. */
  lemma DeltaIsOwn(last: Baselines, stats: seq<Stat>, i: nat)
    requires DistinctNames(stats) && i < |stats|
    ensures DeltaAt(last, stats, i) == Delta(last, stats[i])
  {
    RecordedIs(last, stats[..i]);
  }

  /** After a response of n counters, n > 0, the baseline map holds at most 2n entries. */
  lemma BaselinesStayBounded(last: Baselines, stats: seq<Stat>)
    requires stats != []
    ensures |NextBaselines(last, stats)| <= 2 * |stats|
  {
    NamesCount(stats);
    var full := Recorded(last, stats);
    if |full| > 2 * |stats| {
      SubsetCount(Pruned(full, stats).Keys, NamesOf(stats));
    }
  }

  lemma {:induction false} NamesCount(stats: seq<Stat>)
    ensures |NamesOf(stats)| <= |stats|
  {
    if stats != [] {
      var n := |stats| - 1;
      assert stats == stats[..n] + [stats[n]];
      assert NamesOf(stats) == NamesOf(stats[..n]) + {stats[n].name};
      NamesCount(stats[..n]);
    }
  }

  lemma {:induction false} SubsetCount<T>(a: set<T>, b: set<T>)
    requires a <= b
    ensures |a| <= |b|
  {
    if a != {} {
      var x :| x in a;
      SubsetCount(a - {x}, b - {x});
    }
  }

  // ---------- runs ----------

  /** The panel and the core, with two ledgers: `counted` are the bytes the core counted while the panel
      held a baseline, `reported` the sum of the deltas handed out. `disturbed` are the counters that
      ever dropped, vanished or lost their baseline. */
  datatype World = World(
    counters: Baselines, last: Baselines,
    counted: Baselines, reported: Baselines, disturbed: set<StatName>)

  const START := World(map[], map[], map[], map[], {})

  datatype Event =
    | Bytes(name: StatName, n: nat)
    | Delete(name: StatName)
    | Restart
    | Forget
    | Poll(stats: seq<Stat>)
    | FailedPoll

  function Get(m: Baselines, k: StatName): nat {
    if k in m then m[k] else 0
  }

  ghost predicate Possible(w: World, e: Event) {
    e.Poll? ==> IsResponse(w.counters, e.stats)
  }

  /** What a poll hands out for one counter. */
  function Handed(w: World, k: StatName): nat {
    if w.last == map[] || k !in w.counters then 0 else Delta(w.last, Stat(k, w.counters[k]))
  }

  function Step(w: World, e: Event): World {
    match e
    case Bytes(k, n) =>
      w.(counters := w.counters[k := Get(w.counters, k) + n],
         counted := if w.last == map[] then w.counted else w.counted[k := Get(w.counted, k) + n])
    case Delete(k) =>
      w.(counters := w.counters - {k}, disturbed := w.disturbed + {k})
    case Restart =>
      w.(counters := map[], disturbed := w.disturbed + w.counters.Keys)
    case Forget =>
      w.(last := map[], disturbed := w.disturbed + w.counters.Keys)
    case Poll(stats) =>
      w.(last := NextBaselines(w.last, stats),
         reported := map k | k in w.counters.Keys + w.reported.Keys :: Get(w.reported, k) + Handed(w, k))
    case FailedPoll => w
  }

  ghost predicate Run(events: seq<Event>, w: World)
    decreases |events|
  {
    if events == [] then w == START else
      var n := |events| - 1;
      exists before :: Run(events[..n], before) && Possible(before, events[n]) && w == Step(before, events[n])
  }

  /** Nothing handed out was not counted, even with what the next poll would hand out added; and for an
      undisturbed counter nothing is missing. */
  ghost predicate LedgerHolds(w: World, k: StatName) {
    && Get(w.reported, k) + Handed(w, k) <= Get(w.counted, k)
    && (k !in w.disturbed ==>
        && (k in w.last ==> k in w.counters && w.last[k] <= w.counters[k])
        && Get(w.reported, k) + Handed(w, k) == Get(w.counted, k))
  }

  /** After a poll the baseline of every live counter is its value; other baselines can only go. */
  lemma BaselineAfter(counters: Baselines, last: Baselines, stats: seq<Stat>, k: StatName)
    requires IsResponse(counters, stats)
    ensures k in counters ==> k in NextBaselines(last, stats) && NextBaselines(last, stats)[k] == counters[k]
    ensures k !in counters && k in NextBaselines(last, stats) ==> k in last && NextBaselines(last, stats)[k] == last[k]
  {
    RecordedIs(last, stats);
    if k in counters {
      assert k in NamesOf(stats);
      var i :| 0 <= i < |stats| && stats[i].name == k;
      assert stats[i] in stats;
    }
  }

  lemma PollLedger(w: World, stats: seq<Stat>, k: StatName)
    requires IsResponse(w.counters, stats) && LedgerHolds(w, k)
    ensures Handed(Step(w, Poll(stats)), k) == 0
    ensures LedgerHolds(Step(w, Poll(stats)), k)
  {
    BaselineAfter(w.counters, w.last, stats, k);
  }

  lemma StepLedger(w: World, e: Event, k: StatName)
    requires Possible(w, e) && LedgerHolds(w, k)
    ensures LedgerHolds(Step(w, e), k)
  {
    if e.Poll? { PollLedger(w, e.stats, k); }
  }

  lemma {:induction false} RunLedger(events: seq<Event>, w: World, k: StatName)
    requires Run(events, w)
    ensures LedgerHolds(w, k)
    decreases |events|
  {
    if events != [] {
      var n := |events| - 1;
      var before :| Run(events[..n], before) && Possible(before, events[n]) && w == Step(before, events[n]);
      RunLedger(events[..n], before, k);
      StepLedger(before, events[n], k);
    }
  }

  /** The main result: over every schedule of traffic, polls, restarts, deletions and lost baselines, the
      deltas reported for a counter never exceed the bytes counted since the panel held a baseline; right
      after a poll they are exactly those bytes for a counter that never dropped or vanished. */
  lemma NeverOvercounts(events: seq<Event>, w: World, k: StatName)
    requires Run(events, w)
    ensures Get(w.reported, k) <= Get(w.counted, k)
    ensures events != [] && events[|events| - 1].Poll? && k !in w.disturbed ==> Get(w.reported, k) == Get(w.counted, k)
  {
    RunLedger(events, w, k);
    if events != [] && events[|events| - 1].Poll? {
      var n := |events| - 1;
      var before :| Run(events[..n], before) && Possible(before, events[n]) && w == Step(before, events[n]);
      RunLedger(events[..n], before, k);
      PollLedger(before, events[n].stats, k);
    }
  }

  // ---------- from counters to the reported records ----------

  /** What a poll that is not the baseline pass accrues for a name. */
  function Accrued(last: Baselines, stats: seq<Stat>, name: StatName): nat {
    if stats == [] then 0 else
      var s := stats[|stats| - 1];
      if s.name == name then Delta(last, s) else Accrued(last, stats[..|stats| - 1], name)
  }

  lemma {:induction false} AccruedAt(last: Baselines, stats: seq<Stat>, i: nat)
    requires DistinctNames(stats) && i < |stats|
    ensures Accrued(last, stats, stats[i].name) == Delta(last, stats[i])
  {
    if i < |stats| - 1 { AccruedAt(last, stats[..|stats| - 1], i); }
  }

  lemma {:induction false} AccruedNone(last: Baselines, stats: seq<Stat>, name: StatName)
    requires name !in NamesOf(stats)
    ensures Accrued(last, stats, name) == 0
  {
    if stats != [] {
      var n := |stats| - 1;
      assert stats == stats[..n] + [stats[n]];
      AccruedNone(last, stats[..n], name);
    }
  }

  /** The ledgers of a run and the records of a poll speak of the same deltas. */
  lemma AccruedIsHanded(w: World, stats: seq<Stat>, k: StatName)
    requires IsResponse(w.counters, stats) && w.last != map[]
    ensures Accrued(w.last, stats, k) == Handed(w, k)
  {
    if k in w.counters {
      assert k in NamesOf(stats);
      var i :| 0 <= i < |stats| && stats[i].name == k;
      AccruedAt(w.last, stats, i);
      assert stats[i] in stats;
    } else {
      AccruedNone(w.last, stats, k);
    }
  }

  function ClientValue(m: map<string, ClientTraffic>, email: string, down: bool): int {
    if email !in m then 0 else if down then m[email].down else m[email].up
  }

  /** No client byte is lost or invented between the counters and the record of the client. */
  lemma {:induction false} ClientRecordIsExact(last: Baselines, stats: seq<Stat>, email: string, down: bool)
    requires DistinctNames(stats)
    ensures ClientValue(ClientMap(last, stats), email, down) == Accrued(last, stats, Client(email, down))
  {
    if stats != [] {
      var n := |stats| - 1;
      DeltaIsOwn(last, stats, n);
      ClientRecordIsExact(last, stats[..n], email, down);
      if stats[n].name == Client(email, !down) {
        ClientRecordIsExact(last, stats[..n], email, !down);
      }
    }
  }

  /** The bytes of a counter since its baseline; one without baseline, or below it because it started over, counts
      whole. */
  predicate Since(last: Baselines, s: Stat, n: int) {
    n == if s.name in last && last[s.name] <= s.value then s.value - last[s.name] else s.value
  }

  lemma AccruedIsSince(last: Baselines, stats: seq<Stat>, i: nat)
    requires DistinctNames(stats) && i < |stats|
    ensures Since(last, stats[i], Accrued(last, stats, stats[i].name))
  {
    AccruedAt(last, stats, i);
  }

  /** Whatever the baselines, the record of a client says exactly that of each of its counters. */
  lemma ClientBytes(last: Baselines, stats: seq<Stat>, i: nat)
    requires DistinctNames(stats) && i < |stats| && stats[i].name.Client?
    ensures Since(last, stats[i], ClientValue(ClientMap(last, stats), stats[i].name.email, stats[i].name.down))
  {
    AccruedIsSince(last, stats, i);
    ClientRecordIsExact(last, stats, stats[i].name.email, stats[i].name.down);
  }

  // ---------- whose record it is ----------

  predicate NamesTag(s: Stat, tag: string) {
    s.name.Handler? && s.name.tag == tag
  }

  /** The first counter of the response that speaks of the tag. */
  ghost predicate FirstOfTag(stats: seq<Stat>, tag: string, i: nat) {
    i < |stats| && NamesTag(stats[i], tag) && forall k :: 0 <= k < i ==> !NamesTag(stats[k], tag)
  }

  lemma FirstOfFront(stats: seq<Stat>, tag: string, i: nat)
    requires FirstOfTag(stats, tag, i) && i < |stats| - 1
    ensures FirstOfTag(stats[..|stats| - 1], tag, i)
  {
    var init := stats[..|stats| - 1];
    assert init[i] == stats[i] && forall k :: 0 <= k < i ==> init[k] == stats[k];
  }

  /** There is a record under a tag exactly when some inbound or outbound counter names it, the tag "api" aside. */
  lemma {:induction false} RecordedTags(last: Baselines, stats: seq<Stat>, tag: string)
    ensures tag in TagMap(last, stats) <==> tag != "api" && exists i :: 0 <= i < |stats| && NamesTag(stats[i], tag)
  {
    if stats != [] {
      var init, s := stats[..|stats| - 1], stats[|stats| - 1];
      RecordedTags(last, init, tag);
      assert forall i :: 0 <= i < |init| ==> init[i] == stats[i];
      assert NamesTag(s, tag) ==> NamesTag(stats[|stats| - 1], tag);
    }
  }

  /** A record carries its tag, and is an inbound's or an outbound's as the first counter of that tag in the response
      is. */
  lemma {:induction false} TagRecordIdentity(last: Baselines, stats: seq<Stat>, tag: string, i: nat)
    requires FirstOfTag(stats, tag, i) && tag != "api"
    ensures tag in TagMap(last, stats)
    ensures var t := TagMap(last, stats)[tag];
      t.tag == tag && t.isInbound == stats[i].name.inbound && t.isOutbound == !stats[i].name.inbound
  {
    var n := |stats| - 1;
    if i < n {
      FirstOfFront(stats, tag, i);
      TagRecordIdentity(last, stats[..n], tag, i);
    } else {
      RecordedTags(last, stats[..n], tag);
      assert forall k :: 0 <= k < n ==> stats[..n][k] == stats[k];
    }
  }

  /** There is a record under an email exactly when some client counter names it, and the record carries it. */
  lemma {:induction false} ClientRecordIdentity(last: Baselines, stats: seq<Stat>, email: string)
    ensures email in ClientMap(last, stats) <==>
      exists i :: 0 <= i < |stats| && stats[i].name.Client? && stats[i].name.email == email
    ensures email in ClientMap(last, stats) ==> ClientMap(last, stats)[email].email == email
  {
    if stats != [] {
      var init, s := stats[..|stats| - 1], stats[|stats| - 1];
      ClientRecordIdentity(last, init, email);
      assert forall i :: 0 <= i < |init| ==> init[i] == stats[i];
      assert s == stats[|stats| - 1];
    }
  }

  /** Baselines are only ever dropped when more than twice as many are kept as the response has counters; then exactly
      those of counters missing from it. */
  lemma BaselinesKept(last: Baselines, stats: seq<Stat>, k: StatName)
    requires DistinctNames(stats) && k in last && k !in NamesOf(stats)
    ensures k in NextBaselines(last, stats) <==> stats == [] || |last.Keys + NamesOf(stats)| <= 2 * |stats|
    ensures k in NextBaselines(last, stats) ==> NextBaselines(last, stats)[k] == last[k]
  {
    RecordedIs(last, stats);
    assert |Recorded(last, stats)| == |Recorded(last, stats).Keys|;
  }

  function TagValue(m: map<string, Traffic>, tag: string, down: bool): int {
    if tag !in m then 0 else if down then m[tag].down else m[tag].up
  }

  /** Where a response lists a name; its length when it does not. */
  function Place(stats: seq<Stat>, name: StatName): (i: nat)
    ensures i <= |stats|
    ensures i < |stats| <==> name in NamesOf(stats)
    ensures i < |stats| ==> stats[i].name == name
  {
    if stats == [] then 0
    else if stats[0].name == name then
      assert stats[0] in stats;
      0
    else
      assert stats == [stats[0]] + stats[1..];
      1 + Place(stats[1..], name)
  }

  lemma PutTagValue(m: map<string, Traffic>, name: StatName, value: int, tag: string, down: bool)
    requires tag != "api"
    ensures TagValue(PutTag(m, name, value), tag, down)
         == if name.Handler? && name.tag == tag && name.down == down then value else TagValue(m, tag, down)
  {
  }

  lemma AccruedSkips(last: Baselines, init: seq<Stat>, s: Stat, name: StatName)
    ensures Accrued(last, init + [s], name) == if s.name == name then Delta(last, s) else Accrued(last, init, name)
  {
    assert (init + [s])[..|init|] == init;
  }

  /** What the later of two counters accrued. */
  function LaterOf(last: Baselines, stats: seq<Stat>, i: StatName, o: StatName): nat {
    if o !in NamesOf(stats) || (i in NamesOf(stats) && Place(stats, o) < Place(stats, i))
    then Accrued(last, stats, i) else Accrued(last, stats, o)
  }

  lemma LaterStep(last: Baselines, init: seq<Stat>, s: Stat, i: StatName, o: StatName)
    requires i != o && s.name !in NamesOf(init)
    ensures LaterOf(last, init + [s], i, o) ==
      if s.name == i || s.name == o then Delta(last, s) else LaterOf(last, init, i, o)
  {
    NamesSnoc(init + [s]);
    assert (init + [s])[..|init|] == init;
    PlaceKept(init, s, i);
    PlaceKept(init, s, o);
    AccruedSkips(last, init, s, i);
    AccruedSkips(last, init, s, o);
  }

  lemma LastIsNew(init: seq<Stat>, s: Stat)
    requires DistinctNames(init + [s])
    ensures DistinctNames(init) && s.name !in NamesOf(init)
  {
    forall k | 0 <= k < |init| ensures init[k].name != s.name {
      assert (init + [s])[k] == init[k] && (init + [s])[|init|] == s;
    }
    forall j, k | 0 <= j < k < |init| ensures init[j].name != init[k].name {
      assert (init + [s])[j] == init[j] && (init + [s])[k] == init[k];
    }
  }

  lemma TagMapSnoc(last: Baselines, init: seq<Stat>, s: Stat)
    requires DistinctNames(init + [s])
    ensures TagMap(last, init + [s]) == PutTag(TagMap(last, init), s.name, Delta(last, s))
  {
    assert (init + [s])[..|init|] == init;
    DeltaIsOwn(last, init + [s], |init|);
  }

  /** The record under a tag holds whichever of the two counters of that tag comes later. */
  lemma {:induction false} TagRecordIsLater(last: Baselines, stats: seq<Stat>, tag: string, down: bool)
    requires DistinctNames(stats) && tag != "api"
    ensures var (i, o) := (Handler(true, tag, down), Handler(false, tag, down));
      TagValue(TagMap(last, stats), tag, down) ==
        if o !in NamesOf(stats) || (i in NamesOf(stats) && Place(stats, o) < Place(stats, i))
        then Accrued(last, stats, i) else Accrued(last, stats, o)
  {
    if stats != [] {
      var init, s := stats[..|stats| - 1], stats[|stats| - 1];
      assert stats == init + [s];
      LastIsNew(init, s);
      TagRecordIsLater(last, init, tag, down);
      TagMapSnoc(last, init, s);
      PutTagValue(TagMap(last, init), s.name, Delta(last, s), tag, down);
      LaterStep(last, init, s, Handler(true, tag, down), Handler(false, tag, down));
      assert TagValue(TagMap(last, stats), tag, down) ==
        LaterOf(last, stats, Handler(true, tag, down), Handler(false, tag, down));
    }
  }

  lemma {:induction false} PlaceKept(init: seq<Stat>, s: Stat, name: StatName)
    ensures name in NamesOf(init) ==> Place(init + [s], name) == Place(init, name)
    ensures name !in NamesOf(init) && name == s.name ==> Place(init + [s], name) == |init|
  {
    if init != [] {
      assert init == [init[0]] + init[1..];
      assert (init + [s])[1..] == init[1..] + [s];
      PlaceKept(init[1..], s, name);
    }
  }

  /** No counter of the tag and direction of the i-th comes behind it. */
  ghost predicate LastOfItsKind(stats: seq<Stat>, i: nat)
    requires i < |stats| && stats[i].name.Handler?
  {
    forall j :: i < j < |stats| ==> !(NamesTag(stats[j], stats[i].name.tag) && stats[j].name.down == stats[i].name.down)
  }

  lemma PlacedBefore(stats: seq<Stat>, i: nat, other: StatName)
    requires DistinctNames(stats) && i < |stats| && stats[i].name.Handler? && LastOfItsKind(stats, i)
    requires other == Handler(!stats[i].name.inbound, stats[i].name.tag, stats[i].name.down) && other in NamesOf(stats)
    ensures Place(stats, other) < i
  {
    assert stats[Place(stats, other)].name == other;
  }

  lemma PlaceIs(stats: seq<Stat>, i: nat)
    requires DistinctNames(stats) && i < |stats|
    ensures stats[i].name in NamesOf(stats) && Place(stats, stats[i].name) == i
  {
    assert stats[i] in stats;
  }

  /** And the record of a tag says it of each counter of the tag that has no other of its direction behind it. */
  lemma TagBytes(last: Baselines, stats: seq<Stat>, i: nat)
    requires DistinctNames(stats) && i < |stats| && stats[i].name.Handler? && stats[i].name.tag != "api"
    requires LastOfItsKind(stats, i)
    ensures Since(last, stats[i], TagValue(TagMap(last, stats), stats[i].name.tag, stats[i].name.down))
  {
    var name := stats[i].name;
    var other := Handler(!name.inbound, name.tag, name.down);
    PlaceIs(stats, i);
    AccruedIsSince(last, stats, i);
    TagRecordIsLater(last, stats, name.tag, name.down);
    if other in NamesOf(stats) { PlacedBefore(stats, i, other); }
  }

  /** An inbound and an outbound under one tag share a record, so their bytes add up exactly when they do
      not both appear or the one listed first accrued nothing. */
  lemma TagRecordAddsUpExactly(last: Baselines, stats: seq<Stat>, tag: string, down: bool)
    requires DistinctNames(stats) && tag != "api"
    ensures var (i, o) := (Handler(true, tag, down), Handler(false, tag, down));
      var (a, b) := (Accrued(last, stats, i), Accrued(last, stats, o));
      TagValue(TagMap(last, stats), tag, down) == a + b <==>
        || i !in NamesOf(stats) || o !in NamesOf(stats)
        || (if Place(stats, i) < Place(stats, o) then a else b) == 0
  {
    var i, o := Handler(true, tag, down), Handler(false, tag, down);
    TagRecordIsLater(last, stats, tag, down);
    if i !in NamesOf(stats) { AccruedNone(last, stats, i); }
    if o !in NamesOf(stats) { AccruedNone(last, stats, o); }
    if i in NamesOf(stats) && o in NamesOf(stats) {
      assert stats[Place(stats, i)].name != stats[Place(stats, o)].name;
    }
  }

  /** The loss is real: an inbound and an outbound both called "x", 5 and 7 bytes up, report 7. */
  lemma SharedTagLosesBytes()
    ensures var stats := [Stat(Handler(true, "x", false), 5), Stat(Handler(false, "x", false), 7)];
      var last: Baselines := map[Other("seen") := 0];
      TagValue(TagMap(last, stats), "x", false) == 7
      && Accrued(last, stats, stats[0].name) + Accrued(last, stats, stats[1].name) == 12
  {
    var stats := [Stat(Handler(true, "x", false), 5), Stat(Handler(false, "x", false), 7)];
    var last: Baselines := map[Other("seen") := 0];
    TagRecordIsLater(last, stats, "x", false);
    AccruedAt(last, stats, 0);
    AccruedAt(last, stats, 1);
    assert stats[0] in stats && stats[1] in stats;
  }
}
