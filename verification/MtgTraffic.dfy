/** Traffic collection from the mtg processes: the scrape runs outside the manager's lock, so restarts,
    removals and reloads can fall between the snapshot, the scrape and the store-back. */
module MtgTraffic {
  import opened Options

  datatype Counters = Counters(up: nat, down: nat)

  datatype StatsUser = StatsUser(connections: int, bytesIn: nat, bytesOut: nat)

  datatype Traffic = Traffic(tag: string, email: string, up: int, down: int)

  type Rows = map<string, Counters>

  function Side(c: Counters, down: bool): nat {
    if down then c.down else c.up
  }

  /** Growth of one direction; a counter that went backwards counts nothing. */
  function Growth(prev: nat, now: nat): nat {
    if now > prev then now - prev else 0
  }

  /** The bytes one scrape reports for a client. */
  function Gain(last: Rows, now: Rows, email: string, down: bool): nat {
    if email in last && email in now then Growth(Side(last[email], down), Side(now[email], down)) else 0
  }

  // ---------- one scraped process ----------

  function RowOf(u: StatsUser): Counters {
    Counters(u.bytesIn, u.bytesOut)
  }

  ghost predicate RecordFits(t: Traffic, tag: string, last: Rows, now: Rows) {
    && t.tag == tag
    && t.email in last && t.email in now
    && t.up == Gain(last, now, t.email, false)
    && t.down == Gain(last, now, t.email, true)
    && (t.up > 0 || t.down > 0)
  }

  /** The records are exactly the clients with growth, each once. */
  ghost predicate RecordsFit(out: seq<Traffic>, emails: set<string>, tag: string, last: Rows, now: Rows) {
    && (forall t :: t in out ==> RecordFits(t, tag, last, now) && t.email in emails)
    && (forall i, j :: 0 <= i < j < |out| ==> out[i].email != out[j].email)
    && (forall e :: e in emails && (Gain(last, now, e, false) > 0 || Gain(last, now, e, true) > 0) ==>
          exists t :: t in out && t.email == e)
  }

  function RowsOf(users: map<string, StatsUser>): Rows {
    map e | e in users :: RowOf(users[e])
  }

  lemma NothingToRecord(out: seq<Traffic>, emails: set<string>, email: string, tag: string, last: Rows, now: Rows)
    requires RecordsFit(out, emails, tag, last, now)
    requires Gain(last, now, email, false) == 0 && Gain(last, now, email, true) == 0
    ensures RecordsFit(out, emails + {email}, tag, last, now)
  {}

  lemma OneRecordMore(out: seq<Traffic>, emails: set<string>, t: Traffic, tag: string, last: Rows, now: Rows)
    requires RecordsFit(out, emails, tag, last, now) && t.email !in emails && RecordFits(t, tag, last, now)
    ensures RecordsFit(out + [t], emails + {t.email}, tag, last, now)
  {
    var more := out + [t];
    assert more[|out|] == t && forall u :: u in out ==> u in more;
    forall e | e in emails && (Gain(last, now, e, false) > 0 || Gain(last, now, e, true) > 0)
      ensures exists u :: u in more && u.email == e
    {
      var u :| u in out && u.email == e;
    }
  }

  /** A record of what moved for a user since the last scrape: the bytes in are its upload, the bytes out its
      download; a counter that went backwards tells nothing. */
  predicate Reports(t: Traffic, u: StatsUser, before: Counters) {
    && t.up == (if u.bytesIn > before.up then u.bytesIn - before.up else 0)
    && t.down == (if u.bytesOut > before.down then u.bytesOut - before.down else 0)
  }

  predicate Grew(u: StatsUser, before: Counters) {
    u.bytesIn > before.up || u.bytesOut > before.down
  }

  /** The loop over the users of one /stats answer, in whatever order the map is walked. */
  method FoldUsers(tag: string, users: map<string, StatsUser>, last: Rows)
      returns (out: seq<Traffic>, online: seq<string>, newLast: Rows)
    ensures newLast == RowsOf(users)
    ensures RecordsFit(out, users.Keys, tag, last, RowsOf(users))
    ensures forall e :: e in online <==> e in users && users[e].connections > 0
  {
    out, online, newLast := [], [], map[];
    var todo := users.Keys;
    ghost var now := RowsOf(users);
    while todo != {}
      invariant todo <= users.Keys
      invariant newLast.Keys == users.Keys - todo && forall e :: e in newLast ==> newLast[e] == now[e]
      invariant RecordsFit(out, users.Keys - todo, tag, last, now)
      invariant forall e :: e in online <==> e in users.Keys - todo && users[e].connections > 0
      decreases todo
    {
      var email :| email in todo;
      ghost var seen := users.Keys - todo;
      todo := todo - {email};
      assert users.Keys - todo == seen + {email};
      var u := users[email];
      var up := u.bytesIn;
      var down := u.bytesOut;
      newLast := newLast[email := Counters(up, down)];
      if u.connections > 0 {
        online := online + [email];
      }
      if email !in last {
        NothingToRecord(out, seen, email, tag, last, now);
        continue;
      }
      var prev := last[email];
      var du := up - prev.up;
      var dd := down - prev.down;
      if du < 0 {
        du := 0;
      }
      if dd < 0 {
        dd := 0;
      }
      if du > 0 || dd > 0 {
        OneRecordMore(out, seen, Traffic(tag, email, du, dd), tag, last, now);
        out := out + [Traffic(tag, email, du, dd)];
      } else {
        NothingToRecord(out, seen, email, tag, last, now);
      }
    }
  }

  /** The records, in terms of the answer and the rows kept from the last one. */
  lemma RecordsTold(out: seq<Traffic>, tag: string, users: map<string, StatsUser>, last: Rows)
    requires RecordsFit(out, users.Keys, tag, last, RowsOf(users))
    ensures forall t :: t in out ==>
      t.tag == tag && t.email in users && t.email in last && Reports(t, users[t.email], last[t.email])
    ensures forall e :: e in users && e in last && Grew(users[e], last[e]) ==> exists t :: t in out && t.email == e
  {
    forall t | t in out
      ensures t.tag == tag && t.email in users && t.email in last && Reports(t, users[t.email], last[t.email])
    {
      assert RecordFits(t, tag, last, RowsOf(users));
    }
    forall e | e in users && e in last && Grew(users[e], last[e]) ensures exists t :: t in out && t.email == e {
      assert Gain(last, RowsOf(users), e, false) > 0 || Gain(last, RowsOf(users), e, true) > 0;
    }
  }

  /** One scraped process: exactly one record for each user that grew, with its growth, the users online, and the rows
      to measure the next answer against. */
  method FoldStats(tag: string, users: map<string, StatsUser>, last: Rows)
      returns (out: seq<Traffic>, online: seq<string>, newLast: Rows)
    ensures newLast == RowsOf(users)
    ensures RecordsFit(out, users.Keys, tag, last, RowsOf(users))
    ensures forall e :: e in online <==> e in users && users[e].connections > 0
    ensures newLast.Keys == users.Keys
    ensures forall e :: e in users ==> newLast[e].up == users[e].bytesIn && newLast[e].down == users[e].bytesOut
    ensures forall t :: t in out ==>
      t.tag == tag && t.email in users && t.email in last && Reports(t, users[t.email], last[t.email])
    ensures forall e :: e in users && e in last && Grew(users[e], last[e]) ==> exists t :: t in out && t.email == e
    ensures forall i, j :: 0 <= i < j < |out| ==> out[i].email != out[j].email
  {
    out, online, newLast := FoldUsers(tag, users, last);
    RecordsTold(out, tag, users, last);
  }

  function Total(out: seq<Traffic>, email: string, down: bool): int {
    if out == [] then 0 else
      var t := out[|out| - 1];
      Total(out[..|out| - 1], email, down) + if t.email != email then 0 else if down then t.down else t.up
  }

  /** What the records add up to for a client is its gain. */
  lemma {:induction false} TotalIsGain(out: seq<Traffic>, emails: set<string>, tag: string, last: Rows, now: Rows,
                                       email: string, down: bool)
    requires RecordsFit(out, emails, tag, last, now) && now.Keys <= emails
    ensures Total(out, email, down) == Gain(last, now, email, down)
  {
    if exists i :: 0 <= i < |out| && out[i].email == email {
      var i :| 0 <= i < |out| && out[i].email == email;
      assert RecordFits(out[i], tag, last, now);
      TotalSingle(out, i, down);
    } else {
      TotalNone(out, email, down);
    }
  }

  lemma {:induction false} TotalNone(out: seq<Traffic>, email: string, down: bool)
    requires forall i :: 0 <= i < |out| ==> out[i].email != email
    ensures Total(out, email, down) == 0
  {
    if out != [] { TotalNone(out[..|out| - 1], email, down); }
  }

  lemma {:induction false} TotalSingle(out: seq<Traffic>, i: nat, down: bool)
    requires i < |out| && forall j, k :: 0 <= j < k < |out| ==> out[j].email != out[k].email
    ensures Total(out, out[i].email, down) == if down then out[i].down else out[i].up
  {
    var n := |out| - 1;
    if i < n {
      TotalSingle(out[..n], i, down);
    } else {
      TotalNone(out[..n], out[i].email, down);
    }
  }

  // ---------- the interleaved protocol ----------

  datatype Entry = Entry(pid: nat, last: Rows)

  /** What the collector took under the lock for one inbound. */
  datatype Snap = Snap(id: int, pid: nat, last: Rows)

  /** The snapshots left to handle; `scraped` holds the answer for the first of them, not yet stored. */
  datatype Collector = Idle | Working(snaps: seq<Snap>, scraped: Option<Rows>)

  /** A counter of a process: process, client, direction. */
  type Meter = (nat, string, bool)

  /** Entries of the manager, counters of every process ever started, and two ledgers: the bytes each
      process counted, and the bytes reported for it. */
  datatype World = World(
    procs: map<int, Entry>, rows: map<nat, Rows>, collector: Collector,
    counted: map<Meter, nat>, reported: map<Meter, nat>)

  const START := World(map[], map[], Idle, map[], map[])

  function Get(m: map<Meter, nat>, k: Meter): nat {
    if k in m then m[k] else 0
  }

  datatype Event =
    | Count(pid: nat, email: string, down: bool, n: nat)  // a client moves bytes
    | DropUser(pid: nat, email: string)                    // a reload drops a secret and its counters
    | Start(id: int, pid: nat)                             // first start, or stop and restart
    | Remove(id: int)
    | Begin(ids: seq<int>)                                 // snapshot of the running entries
    | Scrape(ok: bool)
    | Store

  function RowAt(w: World, pid: nat, email: string): Counters {
    if pid in w.rows && email in w.rows[pid] then w.rows[pid][email] else Counters(0, 0)
  }

  function Bump(c: Counters, down: bool, n: nat): Counters {
    if down then c.(down := c.down + n) else c.(up := c.up + n)
  }

  ghost predicate Possible(w: World, e: Event) {
    match e
    case Count(pid, _, _, _) => pid in w.rows
    case DropUser(pid, _) => pid in w.rows
    case Start(_, pid) => pid !in w.rows
    case Remove(_) => true
    case Begin(ids) =>
      && w.collector.Idle?  // one collector at a time
      && (forall i :: 0 <= i < |ids| ==> ids[i] in w.procs)
      && (forall i, j :: 0 <= i < j < |ids| ==> ids[i] != ids[j])
    case Scrape(ok) =>
      && w.collector.Working? && w.collector.snaps != [] && w.collector.scraped.None?
      && (ok ==> w.collector.snaps[0].pid in w.rows)
    case Store => w.collector.Working? && w.collector.snaps != [] && w.collector.scraped.Some?
  }

  function SnapOf(w: World, id: int): Snap
    requires id in w.procs
  {
    Snap(id, w.procs[id].pid, w.procs[id].last)
  }

  function Pop(c: Collector): Collector
    requires c.Working? && c.snaps != []
  {
    if |c.snaps| == 1 then Idle else Working(c.snaps[1..], None)
  }

  /** The ledger after a scrape of one process. */
  function Report(reported: map<Meter, nat>, pid: nat, last: Rows, now: Rows): (r: map<Meter, nat>)
    ensures forall k :: Get(r, k) == Get(reported, k) + if k.0 == pid then Gain(last, now, k.1, k.2) else 0
  {
    var keys := set e, d | e in now.Keys && d in {false, true} :: (pid, e, d);
    map k | k in reported.Keys + keys :: Get(reported, k) + if k.0 == pid then Gain(last, now, k.1, k.2) else 0
  }

  ghost function Step(w: World, e: Event): World
    requires Possible(w, e)
  {
    match e
    case Count(pid, email, down, n) =>
      var row := Bump(RowAt(w, pid, email), down, n);
      w.(rows := w.rows[pid := w.rows[pid][email := row]],
         counted := w.counted[(pid, email, down) := Get(w.counted, (pid, email, down)) + n])
    case DropUser(pid, email) => w.(rows := w.rows[pid := w.rows[pid] - {email}])
    case Start(id, pid) => w.(procs := w.procs[id := Entry(pid, map[])], rows := w.rows[pid := map[]])
    case Remove(id) => w.(procs := w.procs - {id})
    case Begin(ids) =>
      if ids == [] then w
      else w.(collector := Working(seq(|ids|, i requires 0 <= i < |ids| => SnapOf(w, ids[i])), None))
    case Scrape(ok) =>
      var snap := w.collector.snaps[0];
      if !ok then w.(collector := Pop(w.collector))
      else w.(collector := w.collector.(scraped := Some(w.rows[snap.pid])),
              reported := Report(w.reported, snap.pid, snap.last, w.rows[snap.pid]))
    case Store =>
      var snap, newLast := w.collector.snaps[0], w.collector.scraped.value;
      w.(collector := Pop(w.collector),
         procs := if snap.id in w.procs then w.procs[snap.id := w.procs[snap.id].(last := newLast)] else w.procs)
  }

  ghost predicate Run(events: seq<Event>, w: World)
    decreases |events|
  {
    if events == [] then w == START else
      var n := |events| - 1;
      exists before :: Run(events[..n], before) && Possible(before, events[n]) && w == Step(before, events[n])
  }

  // ---------- the invariant ----------

  function Snaps(w: World): seq<Snap> {
    if w.collector.Idle? then [] else w.collector.snaps
  }

  /** The rows the i-th snapshot will be measured against next: its own, or the answer about to be stored. */
  function Base(w: World, i: nat): Rows
    requires i < |Snaps(w)|
  {
    if i == 0 && w.collector.scraped.Some? then w.collector.scraped.value else Snaps(w)[i].last
  }

  /** Reported bytes, with what a scrape against these rows would add, stay within the counted ones. */
  ghost predicate Covered(w: World, pid: nat, last: Rows, email: string, down: bool) {
    Get(w.reported, (pid, email, down)) + (if pid in w.rows then Gain(last, w.rows[pid], email, down) else 0)
      <= Get(w.counted, (pid, email, down))
  }

  ghost predicate SnapsDistinct(snaps: seq<Snap>) {
    forall i, j :: 0 <= i < j < |snaps| ==> snaps[i].id != snaps[j].id && snaps[i].pid != snaps[j].pid
  }

  ghost predicate EntriesDistinct(procs: map<int, Entry>) {
    forall i, j :: i in procs && j in procs && i != j ==> procs[i].pid != procs[j].pid
  }

  /** An entry that still holds the process of a snapshot is the snapshot's own, with the same baseline. */
  ghost predicate Agrees(snaps: seq<Snap>, id: int, entry: Entry) {
    forall i :: 0 <= i < |snaps| && snaps[i].pid == entry.pid ==> snaps[i].id == id && snaps[i].last == entry.last
  }

  /** Every process a snapshot, an entry or a ledger speaks of was started. */
  ghost predicate Known(w: World) {
    && (forall id :: id in w.procs ==> w.procs[id].pid in w.rows)
    && (forall i :: 0 <= i < |Snaps(w)| ==> Snaps(w)[i].pid in w.rows)
    && (forall k: Meter :: k in w.reported ==> k.0 in w.rows)
    && (forall k: Meter :: k in w.counted ==> k.0 in w.rows)
  }

  ghost predicate Shape(w: World) {
    && (w.collector.Working? ==> w.collector.snaps != [])
    && Known(w)
    && EntriesDistinct(w.procs)
    && SnapsDistinct(Snaps(w))
    && (forall id :: id in w.procs ==> Agrees(Snaps(w), id, w.procs[id]))
  }

  ghost predicate Spoken(snaps: seq<Snap>, id: int) {
    exists i :: 0 <= i < |snaps| && snaps[i].id == id
  }

  ghost predicate Replaced(snaps: seq<Snap>, id: int, pid: nat) {
    exists i :: 0 <= i < |snaps| && snaps[i].id == id && snaps[i].pid != pid
  }

  /** An entry that no pending snapshot speaks of is covered by its own rows; one that replaced the process
      of a pending snapshot has never been reported, so any rows stored onto it are harmless. */
  ghost predicate EntryLedger(w: World, id: int, email: string, down: bool)
    requires id in w.procs
  {
    var pid := w.procs[id].pid;
    && (Replaced(Snaps(w), id, pid) ==> Get(w.reported, (pid, email, down)) == 0)
    && (!Spoken(Snaps(w), id) ==> Covered(w, pid, w.procs[id].last, email, down))
  }

  ghost predicate SnapsCovered(w: World, email: string, down: bool) {
    forall i :: 0 <= i < |Snaps(w)| ==> Covered(w, Snaps(w)[i].pid, Base(w, i), email, down)
  }

  /** The ledgers of one process. */
  ghost predicate Sound(w: World, pid: nat, email: string, down: bool) {
    && Get(w.reported, (pid, email, down)) <= Get(w.counted, (pid, email, down))
    && Side(RowAt(w, pid, email), down) <= Get(w.counted, (pid, email, down))
  }

  /** The ledgers of one client and direction, over all processes. */
  ghost predicate Ledger(w: World, email: string, down: bool) {
    && (forall pid :: pid in w.rows ==> Sound(w, pid, email, down))
    && SnapsCovered(w, email, down)
    && (forall id :: id in w.procs ==> EntryLedger(w, id, email, down))
  }

  // ---------- each step keeps it ----------

  /** Steps of the processes leave the manager and the collector alone. */
  lemma ProcessStepKeepsShape(w: World, e: Event)
    requires Shape(w) && Possible(w, e) && (e.Count? || e.DropUser?)
    ensures Shape(Step(w, e))
  {
    var v := Step(w, e);
    assert v.procs == w.procs && Snaps(v) == Snaps(w);
    assert v.rows.Keys == w.rows.Keys;
  }

  lemma StartKeepsShape(w: World, e: Event)
    requires Shape(w) && Possible(w, e) && e.Start?
    ensures Shape(Step(w, e))
  {
    var v := Step(w, e);
    assert Snaps(v) == Snaps(w);
    assert v.rows.Keys == w.rows.Keys + {e.pid};
  }

  lemma RemoveKeepsShape(w: World, e: Event)
    requires Shape(w) && Possible(w, e) && e.Remove?
    ensures Shape(Step(w, e))
  {
    assert Snaps(Step(w, e)) == Snaps(w);
  }

  lemma BeginKeepsShape(w: World, e: Event)
    requires Shape(w) && Possible(w, e) && e.Begin?
    ensures Shape(Step(w, e))
  {
    var v := Step(w, e);
    forall id | id in v.procs ensures Agrees(Snaps(v), id, v.procs[id]) {}
  }

  lemma ScrapeKeepsShape(w: World, e: Event)
    requires Shape(w) && Possible(w, e) && e == Scrape(true)
    ensures Shape(Step(w, e))
  {
    assert Snaps(Step(w, e)) == Snaps(w);
  }

  /** `v` is `w` with the first snapshot done with; its entry may have taken over the answer. */
  ghost predicate Popped(w: World, v: World)
    requires Shape(w) && Snaps(w) != []
  {
    var id := Snaps(w)[0].id;
    && v.rows == w.rows && v.counted == w.counted && v.reported == w.reported
    && v.collector == Pop(w.collector)
    && v.procs ==
         if w.collector.scraped.Some? && id in w.procs then w.procs[id := w.procs[id].(last := Base(w, 0))] else w.procs
  }

  lemma RowBoundsGain(w: World, pid: nat, last: Rows, email: string, down: bool)
    requires pid in w.rows
    ensures Gain(last, w.rows[pid], email, down) <= Side(RowAt(w, pid, email), down)
  {}

  /** Rows nothing was ever reported against cover any baseline. */
  lemma SilentIsCovered(w: World, pid: nat, last: Rows, email: string, down: bool)
    requires Ledger(w, email, down) && Get(w.reported, (pid, email, down)) == 0
    ensures Covered(w, pid, last, email, down)
  {
    if pid in w.rows { RowBoundsGain(w, pid, last, email, down); }
  }

  lemma ProcessStepKeepsCover(w: World, e: Event, pid: nat, last: Rows, email: string, down: bool)
    requires Possible(w, e) && (e.Count? || e.DropUser?) && Covered(w, pid, last, email, down)
    ensures Covered(Step(w, e), pid, last, email, down)
  {}

  lemma ProcessStepKeepsSound(w: World, e: Event, pid: nat, email: string, down: bool)
    requires Possible(w, e) && (e.Count? || e.DropUser?) && Sound(w, pid, email, down)
    ensures Sound(Step(w, e), pid, email, down)
  {}

  /** The ledger only needs the processes to keep covering what they covered. */
  lemma CoverKeepsLedger(w: World, v: World, email: string, down: bool)
    requires Ledger(w, email, down)
    requires v.procs == w.procs && v.collector == w.collector && v.reported == w.reported && v.rows.Keys == w.rows.Keys
    requires forall pid :: Sound(w, pid, email, down) ==> Sound(v, pid, email, down)
    requires forall pid, last :: Covered(w, pid, last, email, down) ==> Covered(v, pid, last, email, down)
    ensures Ledger(v, email, down)
  {
    forall i | 0 <= i < |Snaps(v)| ensures Covered(v, Snaps(v)[i].pid, Base(v, i), email, down) {
      assert Covered(w, Snaps(w)[i].pid, Base(w, i), email, down);
    }
    forall id | id in v.procs ensures EntryLedger(v, id, email, down) {
      assert EntryLedger(w, id, email, down);
    }
  }

  lemma ProcessStepKeepsLedger(w: World, e: Event, email: string, down: bool)
    requires Ledger(w, email, down) && Possible(w, e) && (e.Count? || e.DropUser?)
    ensures Ledger(Step(w, e), email, down)
  {
    var v := Step(w, e);
    forall pid | Sound(w, pid, email, down) ensures Sound(v, pid, email, down) {
      ProcessStepKeepsSound(w, e, pid, email, down);
    }
    forall pid, last | Covered(w, pid, last, email, down) ensures Covered(v, pid, last, email, down) {
      ProcessStepKeepsCover(w, e, pid, last, email, down);
    }
    CoverKeepsLedger(w, v, email, down);
  }

  /** A process that has just started has counted and reported nothing. */
  lemma NewProcessIsSilent(w: World, e: Event, email: string, down: bool)
    requires Shape(w) && Possible(w, e) && e.Start?
    ensures Get(w.reported, (e.pid, email, down)) == 0
    ensures Sound(Step(w, e), e.pid, email, down) && Covered(Step(w, e), e.pid, map[], email, down)
  {
    assert (e.pid, email, down) !in w.reported;
  }

  lemma StartKeepsOthers(w: World, e: Event, pid: nat, last: Rows, email: string, down: bool)
    requires Possible(w, e) && e.Start? && pid != e.pid
    ensures Sound(w, pid, email, down) ==> Sound(Step(w, e), pid, email, down)
    ensures Covered(w, pid, last, email, down) ==> Covered(Step(w, e), pid, last, email, down)
  {}

  lemma StartKeepsEntry(w: World, e: Event, id: int, email: string, down: bool)
    requires Shape(w) && Ledger(w, email, down) && Possible(w, e) && e.Start? && id in Step(w, e).procs
    ensures EntryLedger(Step(w, e), id, email, down)
  {
    assert Snaps(Step(w, e)) == Snaps(w);
    if id == e.id {
      NewProcessIsSilent(w, e, email, down);
    } else {
      assert EntryLedger(w, id, email, down);
      StartKeepsOthers(w, e, w.procs[id].pid, w.procs[id].last, email, down);
    }
  }

  lemma StartKeepsLedger(w: World, e: Event, email: string, down: bool)
    requires Shape(w) && Ledger(w, email, down) && Possible(w, e) && e.Start?
    ensures Ledger(Step(w, e), email, down)
  {
    var v := Step(w, e);
    assert Snaps(v) == Snaps(w);
    NewProcessIsSilent(w, e, email, down);
    forall pid | pid in v.rows ensures Sound(v, pid, email, down) {
      if pid != e.pid { StartKeepsOthers(w, e, pid, map[], email, down); }
    }
    forall i | 0 <= i < |Snaps(v)| ensures Covered(v, Snaps(v)[i].pid, Base(v, i), email, down) {
      assert Covered(w, Snaps(w)[i].pid, Base(w, i), email, down);
      StartKeepsOthers(w, e, Snaps(w)[i].pid, Base(w, i), email, down);
    }
    forall id | id in v.procs ensures EntryLedger(v, id, email, down) {
      StartKeepsEntry(w, e, id, email, down);
    }
  }

  lemma RemoveKeepsLedger(w: World, e: Event, email: string, down: bool)
    requires Shape(w) && Ledger(w, email, down) && Possible(w, e) && e.Remove?
    ensures Ledger(Step(w, e), email, down)
  {
    var v := Step(w, e);
    assert Snaps(v) == Snaps(w);
    forall pid | pid in v.rows ensures Sound(v, pid, email, down) {
      assert Sound(w, pid, email, down);
    }
    forall i | 0 <= i < |Snaps(v)| ensures Covered(v, Snaps(v)[i].pid, Base(v, i), email, down) {
      assert Covered(w, Snaps(w)[i].pid, Base(w, i), email, down);
    }
    forall id | id in v.procs ensures EntryLedger(v, id, email, down) {
      assert EntryLedger(w, id, email, down);
    }
  }

  lemma BeginCovers(w: World, e: Event, i: nat, email: string, down: bool)
    requires Shape(w) && Ledger(w, email, down) && Possible(w, e) && e.Begin? && i < |Snaps(Step(w, e))|
    ensures Covered(Step(w, e), Snaps(Step(w, e))[i].pid, Base(Step(w, e), i), email, down)
  {
    var v, id := Step(w, e), e.ids[i];
    assert Snaps(v)[i] == SnapOf(w, id) && Base(v, i) == w.procs[id].last;
    assert EntryLedger(w, id, email, down);
    assert Covered(w, w.procs[id].pid, w.procs[id].last, email, down);
  }

  lemma BeginKeepsEntry(w: World, e: Event, id: int, email: string, down: bool)
    requires Shape(w) && Ledger(w, email, down) && Possible(w, e) && e.Begin? && id in w.procs
    ensures EntryLedger(Step(w, e), id, email, down)
  {
    assert EntryLedger(w, id, email, down);
  }

  lemma BeginKeepsLedger(w: World, e: Event, email: string, down: bool)
    requires Shape(w) && Ledger(w, email, down) && Possible(w, e) && e.Begin?
    ensures Ledger(Step(w, e), email, down)
  {
    var v := Step(w, e);
    forall pid | pid in v.rows ensures Sound(v, pid, email, down) {
      assert Sound(w, pid, email, down);
    }
    forall i | 0 <= i < |Snaps(v)| ensures Covered(v, Snaps(v)[i].pid, Base(v, i), email, down) {
      BeginCovers(w, e, i, email, down);
    }
    forall id | id in v.procs ensures EntryLedger(v, id, email, down) {
      BeginKeepsEntry(w, e, id, email, down);
    }
  }

  /** What a scrape changes. */
  lemma ScrapeReports(w: World, e: Event, email: string, down: bool)
    requires Shape(w) && Possible(w, e) && e == Scrape(true)
    ensures var (v, snap) := (Step(w, e), Snaps(w)[0]);
      && Snaps(v) == Snaps(w) && v.rows == w.rows && v.counted == w.counted && v.procs == w.procs
      && Base(v, 0) == w.rows[snap.pid] && Base(w, 0) == snap.last
      && forall pid :: Get(v.reported, (pid, email, down)) ==
           Get(w.reported, (pid, email, down))
           + if pid == snap.pid then Gain(snap.last, w.rows[pid], email, down) else 0
  {
    var snap := w.collector.snaps[0];
    assert Step(w, e).reported == Report(w.reported, snap.pid, snap.last, w.rows[snap.pid]);
  }

  lemma NoSelfGain(now: Rows, email: string, down: bool)
    ensures Gain(now, now, email, down) == 0
  {}

  lemma ScrapeKeepsSound(w: World, e: Event, pid: nat, email: string, down: bool)
    requires Shape(w) && Ledger(w, email, down) && Possible(w, e) && e == Scrape(true) && pid in w.rows
    ensures Sound(Step(w, e), pid, email, down)
  {
    ScrapeReports(w, e, email, down);
    assert Sound(w, pid, email, down);
    assert Covered(w, Snaps(w)[0].pid, Base(w, 0), email, down);
  }

  lemma ScrapeKeepsSnap(w: World, e: Event, i: nat, email: string, down: bool)
    requires Shape(w) && Ledger(w, email, down) && Possible(w, e) && e == Scrape(true) && i < |Snaps(Step(w, e))|
    ensures Covered(Step(w, e), Snaps(Step(w, e))[i].pid, Base(Step(w, e), i), email, down)
  {
    ScrapeReports(w, e, email, down);
    assert Covered(w, Snaps(w)[i].pid, Base(w, i), email, down);
    if i == 0 { NoSelfGain(w.rows[Snaps(w)[0].pid], email, down); }
  }

  lemma ScrapeKeepsEntry(w: World, e: Event, id: int, email: string, down: bool)
    requires Shape(w) && Ledger(w, email, down) && Possible(w, e) && e == Scrape(true) && id in w.procs
    ensures EntryLedger(Step(w, e), id, email, down)
  {
    ScrapeReports(w, e, email, down);
    assert EntryLedger(w, id, email, down);
    if w.procs[id].pid == Snaps(w)[0].pid {
      assert Agrees(Snaps(w), id, w.procs[id]);
      assert Snaps(w)[0].id == id && Spoken(Snaps(w), id);
      assert !Replaced(Snaps(w), id, w.procs[id].pid);
    }
  }

  lemma ScrapeKeepsLedger(w: World, e: Event, email: string, down: bool)
    requires Shape(w) && Ledger(w, email, down) && Possible(w, e) && e == Scrape(true)
    ensures Ledger(Step(w, e), email, down)
  {
    var v := Step(w, e);
    forall pid | pid in v.rows ensures Sound(v, pid, email, down) {
      ScrapeKeepsSound(w, e, pid, email, down);
    }
    forall i | 0 <= i < |Snaps(v)| ensures Covered(v, Snaps(v)[i].pid, Base(v, i), email, down) {
      ScrapeKeepsSnap(w, e, i, email, down);
    }
    forall id | id in v.procs ensures EntryLedger(v, id, email, down) {
      ScrapeKeepsEntry(w, e, id, email, down);
    }
  }

  lemma PoppedKeepsShape(w: World, v: World)
    requires Shape(w) && Snaps(w) != [] && Popped(w, v)
    ensures Shape(v)
  {
    assert Snaps(v) == Snaps(w)[1..];
    assert v.procs.Keys == w.procs.Keys;
    forall id | id in v.procs ensures Agrees(Snaps(v), id, v.procs[id]) {
      assert Agrees(Snaps(w), id, w.procs[id]);
    }
  }

  /** The entry of the first snapshot: its own process, now measured from the answer, or a silent newcomer. */
  lemma PoppedCovers(w: World, v: World, email: string, down: bool)
    requires Shape(w) && Ledger(w, email, down) && Snaps(w) != [] && Popped(w, v) && Snaps(w)[0].id in v.procs
    ensures var entry := v.procs[Snaps(w)[0].id]; Covered(v, entry.pid, entry.last, email, down)
  {
    var snap := Snaps(w)[0];
    var entry := v.procs[snap.id];
    assert EntryLedger(w, snap.id, email, down) && Agrees(Snaps(w), snap.id, w.procs[snap.id]);
    if entry.pid == snap.pid {
      assert Covered(w, snap.pid, Base(w, 0), email, down);
      assert entry.last == Base(w, 0);
    } else {
      assert Replaced(Snaps(w), snap.id, entry.pid);
      SilentIsCovered(w, entry.pid, entry.last, email, down);
    }
  }

  /** The other snapshots speak of what they spoke of. */
  lemma PoppedSpeaks(snaps: seq<Snap>, id: int, pid: nat)
    requires snaps != []
    ensures Replaced(snaps[1..], id, pid) ==> Replaced(snaps, id, pid)
    ensures id != snaps[0].id && Spoken(snaps, id) ==> Spoken(snaps[1..], id)
  {
    if Replaced(snaps[1..], id, pid) {
      var i :| 0 <= i < |snaps[1..]| && snaps[1..][i].id == id && snaps[1..][i].pid != pid;
      assert snaps[i + 1].id == id && snaps[i + 1].pid != pid;
    }
    if id != snaps[0].id && Spoken(snaps, id) {
      var i :| 0 <= i < |snaps| && snaps[i].id == id;
      assert snaps[1..][i - 1].id == id;
    }
  }

  lemma PoppedKeepsEntry(w: World, v: World, id: int, email: string, down: bool)
    requires Shape(w) && Ledger(w, email, down) && Snaps(w) != [] && Popped(w, v) && id in v.procs
    ensures EntryLedger(v, id, email, down)
  {
    assert Snaps(v) == Snaps(w)[1..];
    assert EntryLedger(w, id, email, down);
    PoppedSpeaks(Snaps(w), id, v.procs[id].pid);
    if id == Snaps(w)[0].id {
      PoppedCovers(w, v, email, down);
    } else {
      assert v.procs[id] == w.procs[id];
    }
  }

  lemma PoppedKeepsLedger(w: World, v: World, email: string, down: bool)
    requires Shape(w) && Ledger(w, email, down) && Snaps(w) != [] && Popped(w, v)
    ensures Ledger(v, email, down)
  {
    assert Snaps(v) == Snaps(w)[1..];
    forall pid | pid in v.rows ensures Sound(v, pid, email, down) {
      assert Sound(w, pid, email, down);
    }
    forall i | 0 <= i < |Snaps(v)| ensures Covered(v, Snaps(v)[i].pid, Base(v, i), email, down) {
      assert Covered(w, Snaps(w)[i + 1].pid, Base(w, i + 1), email, down);
    }
    forall id | id in v.procs ensures EntryLedger(v, id, email, down) {
      PoppedKeepsEntry(w, v, id, email, down);
    }
  }

  lemma StepKeepsInvariant(w: World, e: Event, email: string, down: bool)
    requires Shape(w) && Ledger(w, email, down) && Possible(w, e)
    ensures Shape(Step(w, e)) && Ledger(Step(w, e), email, down)
  {
    if e.Count? || e.DropUser? {
      ProcessStepKeepsShape(w, e);
      ProcessStepKeepsLedger(w, e, email, down);
    } else if e.Start? {
      StartKeepsShape(w, e);
      StartKeepsLedger(w, e, email, down);
    } else if e.Remove? {
      RemoveKeepsShape(w, e);
      RemoveKeepsLedger(w, e, email, down);
    } else if e.Begin? {
      BeginKeepsShape(w, e);
      BeginKeepsLedger(w, e, email, down);
    } else if e == Scrape(true) {
      ScrapeKeepsShape(w, e);
      ScrapeKeepsLedger(w, e, email, down);
    } else {
      PoppedKeepsShape(w, Step(w, e));
      PoppedKeepsLedger(w, Step(w, e), email, down);
    }
  }

  lemma {:induction false} RunKeepsInvariant(events: seq<Event>, w: World, email: string, down: bool)
    requires Run(events, w)
    ensures Shape(w) && Ledger(w, email, down)
    decreases |events|
  {
    if events != [] {
      var n := |events| - 1;
      var before :| Run(events[..n], before) && Possible(before, events[n]) && w == Step(before, events[n]);
      RunKeepsInvariant(events[..n], before, email, down);
      StepKeepsInvariant(before, events[n], email, down);
    }
  }

  /** In every run, with one collector at a time, the bytes reported for a process, client and direction never
      exceed the bytes that process really counted for it; every report is a natural number. */
  lemma CollectNeverOvercounts(events: seq<Event>, w: World, pid: nat, email: string, down: bool)
    requires Run(events, w)
    ensures Get(w.reported, (pid, email, down)) <= Get(w.counted, (pid, email, down))
  {
    RunKeepsInvariant(events, w, email, down);
    if pid in w.rows {
      assert Sound(w, pid, email, down);
    } else {
      assert (pid, email, down) !in w.reported;
    }
  }
}
