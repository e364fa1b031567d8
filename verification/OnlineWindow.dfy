/** Who is online: the clients and inbounds with local traffic within the grace window, and the trees that remote
    nodes report. */
module OnlineWindow {

  function Elements(s: seq<string>): set<string> {
    set x | x in s
  }

  predicate NoDuplicates(s: seq<string>) {
    forall i, j :: 0 <= i < j < |s| ==> s[i] != s[j]
  }

  lemma OneMore(s: seq<string>, x: string)
    ensures Elements(s + [x]) == Elements(s) + {x}
  {}

  /** Every reported key counts as seen now. */
  function Seen(last: map<string, int>, active: set<string>, now: int): map<string, int> {
    last + map k | k in active :: now
  }

  /** The last-seen map after a poll: what left the window goes. */
  function Refreshed(last: map<string, int>, active: set<string>, now: int, grace: int): map<string, int> {
    var seen := Seen(last, active, now);
    map k | k in seen && now - seen[k] < grace :: seen[k]
  }

  lemma SeenMore(last: map<string, int>, active: set<string>, x: string, now: int)
    ensures Seen(last, active + {x}, now) == Seen(last, active, now)[x := now]
  {}

  lemma NoneSeen(last: map<string, int>, now: int)
    ensures Seen(last, {}, now) == last
  {}

  method MarkSeen(last: map<string, int>, active: seq<string>, now: int) returns (seen: map<string, int>)
    ensures seen == Seen(last, Elements(active), now)
  {
    seen := last;
    NoneSeen(last, now);
    assert Elements(active[..0]) == {};
    for i := 0 to |active|
      invariant seen == Seen(last, Elements(active[..i]), now)
    {
      assert Elements(active[..i + 1]) == Elements(active[..i]) + {active[i]};
      SeenMore(last, Elements(active[..i]), active[i], now);
      seen := seen[active[i] := now];
    }
    assert active[..|active|] == active;
  }

  /** The loop that rebuilds the list and deletes what left the window, walking the map in any order. */
  method Sweep(seen: map<string, int>, now: int, grace: int) returns (kept: map<string, int>, shown: seq<string>)
    ensures kept == map k | k in seen && now - seen[k] < grace :: seen[k]
    ensures Elements(shown) == kept.Keys && NoDuplicates(shown)
  {
    kept, shown := seen, [];
    var todo := kept.Keys;
    while todo != {}
      invariant todo <= kept.Keys <= seen.Keys && forall k :: k in kept ==> kept[k] == seen[k]
      invariant forall k :: k in seen && k !in todo ==> (k in kept <==> now - seen[k] < grace)
      invariant Elements(shown) == kept.Keys - todo && NoDuplicates(shown)
      decreases todo
    {
      var k :| k in todo;
      todo := todo - {k};
      if now - kept[k] < grace {
        OneMore(shown, k);
        shown := shown + [k];
      } else {
        kept := kept - {k};
      }
    }
  }

  /** A node's report: emails per panel GUID. */
  type Tree = map<string, seq<string>>

  /** The emails some tree reports under a GUID. */
  function EmailsUnder(trees: map<int, Tree>, guid: string): set<string> {
    set n, e | n in trees && guid in trees[n] && e in trees[n][guid] :: e
  }

  function EmailsAnywhere(trees: map<int, Tree>): set<string> {
    set n, g, e | n in trees && g in trees[n] && e in trees[n][g] :: e
  }

  class Process {
    var onlineClients: seq<string>
    var localLastOnline: map<string, int>
    var localActiveInbounds: seq<string>
    var localInboundLastActive: map<string, int>
    var nodeOnlineTrees: map<int, Tree>

    ghost predicate Valid()
      reads this
    {
      && Elements(onlineClients) == localLastOnline.Keys && NoDuplicates(onlineClients)
      && Elements(localActiveInbounds) == localInboundLastActive.Keys && NoDuplicates(localActiveInbounds)
    }

    constructor ()
      ensures Valid() && localLastOnline == map[] && localInboundLastActive == map[] && nodeOnlineTrees == map[]
    {
      onlineClients, localLastOnline, localActiveInbounds, localInboundLastActive := [], map[], [], map[];
      nodeOnlineTrees := map[];
    }

    method RefreshLocalOnline(activeEmails: seq<string>, activeInboundTags: seq<string>, now: int, graceMs: int)
      modifies this
      ensures Valid() && nodeOnlineTrees == old(nodeOnlineTrees)
      ensures localLastOnline == Refreshed(old(localLastOnline), Elements(activeEmails), now, graceMs)
      ensures localInboundLastActive ==
        Refreshed(old(localInboundLastActive), Elements(activeInboundTags), now, graceMs)
    {
      localLastOnline := MarkSeen(localLastOnline, activeEmails, now);
      localLastOnline, onlineClients := Sweep(localLastOnline, now, graceMs);
      localInboundLastActive := MarkSeen(localInboundLastActive, activeInboundTags, now);
      localInboundLastActive, localActiveInbounds := Sweep(localInboundLastActive, now, graceMs);
    }

    method SetNodeOnlineTree(nodeID: int, tree: Tree)
      modifies this`nodeOnlineTrees
      ensures nodeOnlineTrees == old(nodeOnlineTrees)[nodeID := tree]
    {
      nodeOnlineTrees := nodeOnlineTrees[nodeID := tree];
    }

    method ClearNodeOnlineClients(nodeID: int)
      modifies this`nodeOnlineTrees
      ensures nodeOnlineTrees == old(nodeOnlineTrees) - {nodeID}
    {
      nodeOnlineTrees := nodeOnlineTrees - {nodeID};
    }

    /** Local and remote clients together, each once. */
    method GetOnlineClients() returns (out: seq<string>)
      requires Valid()
      ensures Elements(out) == localLastOnline.Keys + EmailsAnywhere(nodeOnlineTrees) && NoDuplicates(out)
    {
      if |nodeOnlineTrees| == 0 {
        return onlineClients;
      }
      out := AddNew([], onlineClients);
      var nodes := nodeOnlineTrees.Keys;
      ghost var done: map<int, Tree> := map[];
      while nodes != {}
        invariant nodes <= nodeOnlineTrees.Keys && done == nodeOnlineTrees - nodes
        invariant Elements(out) == localLastOnline.Keys + EmailsAnywhere(done) && NoDuplicates(out)
        decreases nodes
      {
        ghost var some := SomeMember(nodes);
        var n :| n in nodes;
        nodes := nodes - {n};
        out := AddTree(out, n, nodeOnlineTrees[n]);
        MoreNodes(done, n, nodeOnlineTrees[n]);
        done := done[n := nodeOnlineTrees[n]];
      }
      assert done == nodeOnlineTrees;
    }

    /** The union of every node's tree, GUID by GUID. */
    method GetMergedNodeTrees() returns (out: Tree)
      ensures Merged(out, nodeOnlineTrees)
    {
      out := map[];
      var nodes := nodeOnlineTrees.Keys;
      ghost var done: map<int, Tree> := map[];
      while nodes != {}
        invariant nodes <= nodeOnlineTrees.Keys && done == nodeOnlineTrees - nodes && Merged(out, done)
        decreases nodes
      {
        ghost var some := SomeMember(nodes);
        var n :| n in nodes;
        nodes := nodes - {n};
        out := MergeTree(out, done, n, nodeOnlineTrees[n]);
        done := done[n := nodeOnlineTrees[n]];
      }
      assert done == nodeOnlineTrees;
    }
  }

  /** Under every named GUID with clients, and under no other, all its clients, each once. */
  ghost predicate Merged(out: Tree, trees: map<int, Tree>) {
    forall g :: MergedAt(out, trees, g)
  }

  ghost predicate MergedAt(out: Tree, trees: map<int, Tree>, g: string) {
    && (g in out <==> g != "" && EmailsUnder(trees, g) != {})
    && (g in out ==> Elements(out[g]) == EmailsUnder(trees, g) && NoDuplicates(out[g]))
  }

  /** The inner loop: one node's tree on top of those merged so far. */
  method MergeTree(out: Tree, ghost done: map<int, Tree>, n: int, tree: Tree) returns (more: Tree)
    requires Merged(out, done) && n !in done
    ensures Merged(more, done[n := tree])
  {
    more := out;
    var guids := tree.Keys;
    NothingUnder(more, done, n);
    assert tree - guids == map[];
    while guids != {}
      invariant guids <= tree.Keys && Merged(more, done[n := tree - guids])
      decreases guids
    {
      var g :| g in guids;
      ghost var left, was := guids, more;
      guids := guids - {g};
      assert MergedAt(was, done[n := tree - left], g);
      if g != "" && |tree[g]| != 0 {
        assert tree[g][0] in Elements(tree[g]);
        var emails := AddNew(if g in more then more[g] else [], tree[g]);
        more := more[g := emails];
      }
      ghost var merged := done[n := tree - guids];
      forall h ensures MergedAt(more, merged, h) {
        assert MergedAt(was, done[n := tree - left], h);
        UnderOneMore(done, n, tree, left, g, h);
      }
    }
    assert tree - guids == tree;
  }

  lemma NothingUnder(out: Tree, done: map<int, Tree>, n: int)
    requires Merged(out, done) && n !in done
    ensures Merged(out, done[n := map[]])
  {
    var trees: map<int, Tree> := done[n := map[]];
    forall g ensures MergedAt(out, trees, g) {
      assert MergedAt(out, done, g);
      forall e | e in EmailsUnder(done, g) ensures e in EmailsUnder(trees, g) {
        var m :| m in done && g in done[m] && e in done[m][g];
        assert m in trees && g in trees[m] && e in trees[m][g];
      }
      forall e | e in EmailsUnder(trees, g) ensures e in EmailsUnder(done, g) {
        var m :| m in trees && g in trees[m] && e in trees[m][g];
        assert m in done && g in done[m] && e in done[m][g];
      }
    }
  }

  lemma UnderOneMore(done: map<int, Tree>, n: int, tree: Tree, left: set<string>, g: string, h: string)
    requires n !in done && g in left && left <= tree.Keys
    ensures EmailsUnder(done[n := tree - (left - {g})], h) ==
      EmailsUnder(done[n := tree - left], h) + if h == g then Elements(tree[g]) else {}
  {
    var before, after := done[n := tree - left], done[n := tree - (left - {g})];
    forall e | e in EmailsUnder(before, h) ensures e in EmailsUnder(after, h) {
      var m :| m in before && h in before[m] && e in before[m][h];
      assert m in after && h in after[m] && e in after[m][h];
    }
    forall e | h == g && e in tree[g] ensures e in EmailsUnder(after, h) {
      assert n in after && h in after[n] && e in after[n][h];
    }
    forall e | e in EmailsUnder(after, h) ensures e in EmailsUnder(before, h) || (h == g && e in tree[g]) {
      var m :| m in after && h in after[m] && e in after[m][h];
      assert m != n || h != g ==> m in before && h in before[m] && e in before[m][h];
    }
  }

  /** Appends the emails not there yet. */
  method AddNew(out: seq<string>, emails: seq<string>) returns (more: seq<string>)
    requires NoDuplicates(out)
    ensures Elements(more) == Elements(out) + Elements(emails) && NoDuplicates(more)
    ensures out <= more
  {
    more := out;
    var seen := Elements(out);
    for i := 0 to |emails|
      invariant seen == Elements(more) == Elements(out) + Elements(emails[..i])
      invariant NoDuplicates(more) && out <= more
    {
      assert Elements(emails[..i + 1]) == Elements(emails[..i]) + {emails[i]};
      if emails[i] in seen {
        continue;
      }
      seen := seen + {emails[i]};
      more := more + [emails[i]];
    }
    assert emails[..|emails|] == emails;
  }

  /** The inner loop: everyone in one node's tree. */
  method AddTree(out: seq<string>, ghost n: int, tree: Tree) returns (more: seq<string>)
    requires NoDuplicates(out)
    ensures Elements(more) == Elements(out) + EmailsAnywhere(map[n := tree]) && NoDuplicates(more)
  {
    more := out;
    var guids := tree.Keys;
    while guids != {}
      invariant guids <= tree.Keys && NoDuplicates(more)
      invariant Elements(more) == Elements(out) + EmailsAnywhere(map[n := tree - guids])
      decreases guids
    {
      var g :| g in guids;
      MoreGuids(n, tree, guids, g);
      guids := guids - {g};
      more := AddNew(more, tree[g]);
    }
    assert tree - {} == tree;
  }

  lemma SomeMember<T>(s: set<T>) returns (x: T)
    requires s != {}
    ensures x in s
  {
    x :| x in s;
  }

  lemma MoreGuids(n: int, tree: Tree, left: set<string>, g: string)
    requires g in left && left <= tree.Keys
    ensures EmailsAnywhere(map[n := tree - (left - {g})]) ==
      EmailsAnywhere(map[n := tree - left]) + Elements(tree[g])
  {
    var before, after := map[n := tree - left], map[n := tree - (left - {g})];
    forall e | e in tree[g] ensures e in EmailsAnywhere(after) {
      assert n in after && g in after[n] && e in after[n][g];
    }
    forall e | e in EmailsAnywhere(before) ensures e in EmailsAnywhere(after) {
      var h :| h in before[n] && e in before[n][h];
      assert n in after && h in after[n] && e in after[n][h];
    }
    forall e | e in EmailsAnywhere(after) ensures e in EmailsAnywhere(before) || e in tree[g] {
      var h :| h in after[n] && e in after[n][h];
      assert h != g ==> n in before && h in before[n] && e in before[n][h];
    }
  }

  lemma MoreNodes(done: map<int, Tree>, n: int, tree: Tree)
    requires n !in done
    ensures EmailsAnywhere(done[n := tree]) == EmailsAnywhere(done) + EmailsAnywhere(map[n := tree])
  {
    var more, one := done[n := tree], map[n := tree];
    forall e | e in EmailsAnywhere(more) ensures e in EmailsAnywhere(done) || e in EmailsAnywhere(one) {
      var m, g :| m in more && g in more[m] && e in more[m][g];
      assert m == n ==> m in one && g in one[m] && e in one[m][g];
      assert m != n ==> m in done && g in done[m] && e in done[m][g];
    }
    forall e | e in EmailsAnywhere(done) ensures e in EmailsAnywhere(more) {
      var m, g :| m in done && g in done[m] && e in done[m][g];
      assert m in more && g in more[m] && e in more[m][g];
    }
    forall e | e in EmailsAnywhere(one) ensures e in EmailsAnywhere(more) {
      var g :| g in one[n] && e in one[n][g];
      assert n in more && g in more[n] && e in more[n][g];
    }
  }

  // ---------- whole histories ----------

  datatype Poll = Poll(active: set<string>, now: int)

  /** The last-seen map after a sequence of polls. */
  function After(polls: seq<Poll>, grace: int): map<string, int> {
    if polls == [] then map[] else
      var n := |polls| - 1;
      Refreshed(After(polls[..n], grace), polls[n].active, polls[n].now, grace)
  }

  ghost predicate ClockRises(polls: seq<Poll>) {
    forall i, j :: 0 <= i <= j < |polls| ==> polls[i].now <= polls[j].now
  }

  /** Some poll within the grace window reported the key. */
  ghost predicate Recent(polls: seq<Poll>, grace: int, key: string, now: int) {
    exists i :: 0 <= i < |polls| && key in polls[i].active && now - polls[i].now < grace
  }

  /** The i-th poll is the last that reported the key. */
  ghost predicate LastReport(polls: seq<Poll>, key: string, i: nat) {
    && i < |polls| && key in polls[i].active
    && forall m :: i < m < |polls| ==> key !in polls[m].active
  }

  /** At every poll since, the i-th was still within the window. */
  ghost predicate NeverLate(polls: seq<Poll>, grace: int, i: nat)
    requires i < |polls|
  {
    forall j :: i <= j < |polls| ==> polls[j].now - polls[i].now < grace
  }

  lemma NeverLateSnoc(polls: seq<Poll>, grace: int, i: nat)
    requires i < |polls| - 1
    ensures NeverLate(polls, grace, i) <==>
      NeverLate(polls[..|polls| - 1], grace, i) && polls[|polls| - 1].now - polls[i].now < grace
  {
    var init := polls[..|polls| - 1];
    assert forall j :: 0 <= j < |init| ==> init[j] == polls[j];
  }

  /** Whatever the clock does, a key is known exactly when at every poll since its last report that report was still
      within the window, and then with the time of that report. */
  lemma {:induction false} OnlineExactly(polls: seq<Poll>, grace: int, key: string, i: nat)
    requires LastReport(polls, key, i)
    ensures key in After(polls, grace) <==> NeverLate(polls, grace, i)
    ensures key in After(polls, grace) ==> After(polls, grace)[key] == polls[i].now
  {
    var n := |polls| - 1;
    if i < n {
      OnlineExactly(polls[..n], grace, key, i);
      NeverLateSnoc(polls, grace, i);
    }
  }

  lemma {:induction false} NeverReported(polls: seq<Poll>, grace: int, key: string)
    requires forall i :: 0 <= i < |polls| ==> key !in polls[i].active
    ensures key !in After(polls, grace)
  {
    if polls != [] { NeverReported(polls[..|polls| - 1], grace, key); }
  }

  lemma {:induction false} LastReportOf(polls: seq<Poll>, key: string) returns (i: nat)
    requires exists m :: 0 <= m < |polls| && key in polls[m].active
    ensures LastReport(polls, key, i)
  {
    var n := |polls| - 1;
    if key in polls[n].active {
      i := n;
    } else {
      var m :| 0 <= m < |polls| && key in polls[m].active;
      assert polls[..n][m] == polls[m];
      i := LastReportOf(polls[..n], key);
    }
  }

  /** So with a clock that does not go back, a key is known exactly when some poll reported it within the grace window,
      as the full history says, with the time of its last report. */
  lemma OnlineIsRecent(polls: seq<Poll>, grace: int, key: string)
    requires polls != [] && ClockRises(polls)
    ensures key in After(polls, grace) <==> Recent(polls, grace, key, polls[|polls| - 1].now)
    ensures key in After(polls, grace) ==>
      exists i: nat :: LastReport(polls, key, i) && After(polls, grace)[key] == polls[i].now
  {
    if exists m :: 0 <= m < |polls| && key in polls[m].active {
      var i := LastReportOf(polls, key);
      OnlineExactly(polls, grace, key, i);
      LastDecides(polls, grace, key, i);
    } else {
      NeverReported(polls, grace, key);
    }
  }

  lemma LastDecides(polls: seq<Poll>, grace: int, key: string, i: nat)
    requires LastReport(polls, key, i) && ClockRises(polls)
    ensures NeverLate(polls, grace, i) <==> Recent(polls, grace, key, polls[|polls| - 1].now)
  {
    var now := polls[|polls| - 1].now;
    if Recent(polls, grace, key, now) {
      var m :| 0 <= m < |polls| && key in polls[m].active && now - polls[m].now < grace;
      assert m <= i;
    }
  }

  /** When the clock goes back, a client may stay out although it was reported within the window. */
  lemma ClockGoesBack()
    ensures var polls := [Poll({"user"}, 0), Poll({}, 20000), Poll({}, 10000)];
      "user" !in After(polls, 20000) && Recent(polls, 20000, "user", 10000)
  {
    var polls := [Poll({"user"}, 0), Poll({}, 20000), Poll({}, 10000)];
    assert polls[..2] == [Poll({"user"}, 0), Poll({}, 20000)] && polls[..2][..1] == [Poll({"user"}, 0)];
    assert polls[..2][..1][..0] == [];
    assert After(polls[..2][..1], 20000) == map["user" := 0];
    assert After(polls[..2], 20000) == map[];
    assert "user" in polls[0].active;
  }
}
