# Verified models of the 3x-ui panel's supervising cores

This Dafny project models the parts of the panel where a mistake is hard to see by reading one function: the diff that
reloads a running Xray core without a restart, the accounting of counters that reset and vanish, the manager of the
mtg processes, the in-process event bus, the single-flight subscription cache, the remark templates and the Jalali
calendar, and a few small state machines. Each algorithm is proved against a specification, and what the panel promises
is proved about that specification over every input, every run or every interleaving.

`dafny verify dfyconfig.toml` checks the whole project.

## How the model is built

Objects that the panel updates in place are classes here, with one method per operation whose postcondition gives the
whole new state as a function of the old one; loops are loops with invariants, and a walk over a Go map picks keys in
any order. Protocols between goroutines are state machines: a step is one critical section or one channel operation,
and the theorems hold for every sequence of steps. Calls to the outside world (gRPC, HTTP, process control, files, the
clock) are parameters: any outcome is possible. Fields that only record history, such as the bytes counted by a
process or the events offered to a subscriber, are part of the modelled state and never influence a step.

- `Json`, `JsonLayout`, `XrayConfig`: JSON values, canonical text and its reader; any other layout; configs, sections
  and what they mean.
- `HotDiff`, `HotAccounts`, `HotApply`, `HotPatch`, `HotForwarding`, `HotMeaning`: the diff, what of a client an added
  user carries, the running core and the order in which the panel applies the operations, the theorem when the one
  leads to the other, what it says for configs the panel generated, and all of it read off the fields of the configs.
- `TrafficCounters`: polls of the core's statistics.
- `MtgFingerprint`, `MtgManager`, `MtgReconcile`, `MtgTraffic`, `MtgAccounting`: fingerprints, the manager, what its
  runs keep, the collector that scrapes outside the lock, and what it reports to the byte.
- `EventBus`, `EventBusSafety`, `EventBusProgress`, `RateLimiter`: the bus, its invariants, what its goroutines get done
  when left to it, the limiter of notifications.
- `SubscriptionCache`: the cache with one flight per URL.
- `RemarkText`, `RemarkFilter`, `RemarkFilterLaws`, `RemarkBraces`, `RemarkService`, `RemarkPipeline`, `RemarkExpand`,
  `RemarkFallback`, `RemarkSegments`: remark templates. `Jalali`: the calendar.
- `OnlineWindow`, `SqlDump` and `Utf8`, `ProxyNames`, `TunnelMonitor`: smaller cores.
- `Lexicographic`, `Decimal`, `Joining`, `Trimming`, `Scanning`, `Options`: shared vocabulary.

## What the proofs turned up

- The live reload reports success where the core does not serve the new config, exactly when every client it adds can
  be turned into an account and one of them sets something its account does not hold (`HotPatch.PatchRuns`,
  `HotPatch.PatchCorrect`): the level of any client, testpre and testseed of vless and, in configs the panel itself
  generates, the cipher of vmess and the flow of trojan clients (`HotForwarding.PanelPatchCorrect`,
  `HotForwarding.LevelIsLost`).
- A routing section that was only reformatted is still replaced, and one that goes from absent to `null` forces a
  restart (`HotPatch.ReformattingIsQuiet`).
- Two different counters can share one record: an inbound and an outbound under one tag. The bytes of the one listed
  first are then lost (`TrafficCounters.SharedTagLosesBytes`), exactly when it accrued any.
- Both mtg fingerprints join fields without escaping, so a separator inside a field can hide a change
  (`MtgFingerprint.StructuralFingerprintCollides`). With hexadecimal secrets and tags, as the panel makes and
  checks them, only a bar in a name can (`MtgFingerprint.ServableIsClean`,
  `MtgFingerprint.SecretsFingerprintCollides`), and the panel accepts such names
  (internal/web/service/client_crud.go:22-36). Otherwise they are exact.
- The rate limiter reads the clock before it takes its lock. When goroutines take the lock in another order than they
  read the clock, two events can pass closer than the cooldown (`RateLimiter.ReadingsOutOfLockOrder`), exactly when a
  sweep by a reading ahead of the second one falls between them (`RateLimiter.TooCloseExactly`).
- When the clock goes back a client reported within the window can be missing (`OnlineWindow.ClockGoesBack`), exactly
  when some poll since its latest report found it outside (`OnlineWindow.OnlineExactly`).
- The comparison of config sections decodes one JSON value and ignores text after it, so sections that differ only
  behind that value compare equal; `XrayConfig.RawEqualIffSameMeaning` says so through the meaning of a section.
- A template made only of unlimited quota or expiry tokens expands to nothing where the plain remark would show the
  mark; `RemarkFallback.TemplateAgreesExactly` gives the exact condition and `RemarkFallback.UnlimitedAloneIsLost` an
  input.

## Model

| member | source | states |
|---|---|---|
| `Json.ReadPrint` | internal/xray/hot_diff.go:428-446 | Reading the canonical text of any value gives that value back and nothing after it, with every digit of a number kept (sections 4 to 7 of RFC 8259) |
| `Json.PrintInjective` | internal/xray/hot_diff.go:428-446 | Two values have the same canonical text if and only if they are equal: objects as unordered fields, numbers digit by digit |
| `XrayConfig.RawEqualIffSameMeaning` | internal/xray/hot_diff.go:403-423 | The normalised comparison of two config sections says equal exactly when they mean the same: layout, key order, repeated keys and null-versus-absent do not count, and text that does not parse is compared as it stands |
| `XrayConfig.CanonicalKeepsMeaning` | internal/xray/hot_diff.go:425-446 | The canonical text of a section means what the section meant |
| `JsonLayout.ReadAnyLayout` | internal/xray/hot_diff.go:428-446 | However a value is laid out (white space anywhere the grammar allows it, members in any order, a name repeated, a character spelled plainly, escaped or by number, beyond the first plane by two) reading the text gives the value, the last of repeated names counting, and leaves what follows it (RFC 8259) |
| `JsonLayout.LayoutDoesNotCount` | internal/xray/hot_diff.go:403-446 | Two sections, however laid out, compare equal if and only if they denote the same value |
| `JsonLayout.WholeOrFirst` | internal/xray/hot_diff.go:428-446 | Whatever the layout, when a comma or a closing bracket follows the value a strict reading fails, where decoding takes the value and leaves the rest |
| `XrayConfig.SplitSettingsClients` | internal/xray/hot_diff.go:213-252 | Succeeds exactly when the settings hold a list of clients that are objects with non-empty, pairwise distinct emails; yields a table that holds each client under its own email and nothing else, and the canonical text of the other settings |
| `XrayConfig.IndexClientsExactly` | internal/xray/hot_diff.go:229-245 | A list of clients can be indexed if and only if all are objects with non-empty, pairwise distinct emails, and the index then holds exactly those clients, each under its email |
| `HotDiff.InboundsByTag` | internal/xray/hot_diff.go:450-463 | Succeeds exactly when tags are non-empty and distinct, and indexes every inbound under its own tag |
| `HotDiff.ParseOutbounds` | internal/xray/hot_diff.go:474-505 | Succeeds exactly on a list of outbounds with addressable tags, null or absent reading as the empty list, and keeps their order |
| `HotDiff.DiffInboundUsers` | internal/xray/hot_diff.go:165-204 | Succeeds exactly when the two inbounds differ in addressable clients alone; then appends one removal per gone or changed client and one addition per new or changed one, and nothing else; otherwise changes nothing |
| `HotDiff.DiffInbounds` | internal/xray/hot_diff.go:103-159 | Succeeds exactly when no inbound needs a restart; then the removed tags, added inbounds and user operations appended are exactly those each inbound calls for, in whatever order the maps are walked |
| `HotDiff.DiffOutbounds` | internal/xray/hot_diff.go:296-340 | Succeeds exactly when both lists parse and the default outbound is untouched; then appends exactly the gone or changed tags and the new or changed outbounds |
| `HotDiff.DiffRouting` | internal/xray/hot_diff.go:346-388 | Succeeds exactly when what changed in the routing can be replaced live; keeps the new routing when its text differs |
| `HotDiff.ComputeHotDiff` | internal/xray/hot_diff.go:48-98 | Returns a diff exactly when both configs exist and every difference between them can be applied live, and the diff then holds exactly the operations the differences call for; what that means field by field is `ReloadableExactly` and `DiffExactly` |
| `HotPatch.StaticsFieldByField` | internal/xray/hot_diff.go:58-80 | The sections read at start agree if and only if log, dns, transport, policy, api, stats, reverse, fakeDns, observatory, burstObservatory, metrics, geodata and env each mean the same in both configs |
| `HotMeaning.ReloadableExactly` | internal/xray/hot_diff.go:48-98 | A change can be applied live if and only if those thirteen sections mean the same and the inbounds, the outbounds and the routing each allow it, all read off the fields of the two configs |
| `HotMeaning.DiffExactly` | internal/xray/hot_diff.go:103-388 | In terms of the two configs alone: which tags are removed, which inbounds and outbounds added, which users removed and added under which inbound, each exactly once, and whether the routing is replaced |
| `HotMeaning.ApiTagReads` | internal/xray/hot_diff.go:507-517 | The tag of the API inbound is the one the api section gives, and api if it gives none or an empty one or does not read |
| `HotMeaning.RealityReads` | internal/xray/hot_diff.go:254-265 | An inbound uses REALITY if and only if its stream settings read and name that security |
| `HotMeaning.ReverseReads` | internal/xray/hot_diff.go:267-290 | An inbound carries a reverse client if and only if its settings read as a whole, list clients that are objects or null, and one of these sets a reverse that is not null |
| `HotMeaning.MarshalsExactly` | internal/xray/hot_diff.go:139-155 | An inbound can be sent if and only if each of listen, settings, stream settings and sniffing is absent or one JSON value |
| `HotMeaning.EmailReads` | internal/xray/hot_diff.go:229-245 | The email of a client is the text of its email field |
| `HotMeaning.SameServiceExactly` | internal/web/service/xray.go:1130-1171 | The cores of two configs serve alike if and only if the thirteen sections mean the same, the same tags are served with the same port, protocol, sections and clients, the outbounds are the same with the same first one, and so is the routing |
| `HotAccounts.CarriedExactly` | internal/xray/api.go:533-704 | What AddUser sends for a client (its email and the account of its protocol, failing without a string id or password) is the whole client if and only if the client sets nothing beyond what the account holds: no level for any protocol, no cipher for vmess, no flow for trojan, for vless no testpre and no seeds other than zeros |
| `HotAccounts.ForwardedExactly` | internal/xray/api.go:533-704 | A client is sent if and only if it has an email and the secret of its protocol as texts (and a vless client no flow that is no text); then exactly its texts named by the protocol are taken over, four seeds or more of a vless client become as many zeros, and nothing else is sent |
| `HotPatch.PatchRuns` | internal/web/service/xray.go:1130-1171 | Applied in the panel's order to the core that runs the old config, every removal of a diff finds its handler or user and every addition a free tag or email; the calls go through if and only if every added client can be turned into an account, and then everything but the added users is served as the new config asks, and they as far as their accounts carry them |
| `HotPatch.PatchCorrect` | internal/web/service/xray.go:1130-1171 | The calls of a diff go through and leave a core that serves exactly what the new config asks for (inbounds by tag, users by email, outbounds with the default first, routing) if and only if the account of every added client carries it whole, which is decided on the diff before any call |
| `HotForwarding.PanelPatchCorrect` | internal/web/service/xray.go:199-232 | For a config the panel generated that is so if and only if every added client has its id or password, no added vmess client a cipher and no added trojan client a flow; vless clients are always carried whole |
| `HotForwarding.PatchRunsExactly` | internal/xray/api.go:668-704 | The calls of a diff go through if and only if every added client has its email and the secret of its protocol as texts, and a vless client no flow that is no text |
| `HotForwarding.UncarriedIsLost` | internal/xray/api.go:668-704 | In a config of one vless inbound and one client, any change to a client that its account does not carry is reported as applied when the client is accepted, and the core never serves the new config |
| `HotForwarding.LevelIsLost` | internal/xray/api.go:533-704 | An input: a client of level 1 whose flow changes is added again without its level, and every call goes through |
| `HotPatch.SurvivorsUntouched` | internal/xray/hot_diff.go:103-159 | No diff removes the API inbound, the default outbound, or a REALITY or reverse-client inbound that it would have to add again |
| `HotPatch.ClientChangeKeepsHandler` | internal/xray/hot_diff.go:122-150 | An inbound that differs in addressable clients alone is neither removed nor added: only its users change |
| `HotPatch.ReformattingIsQuiet` | internal/xray/hot_diff.go:346-423 | When everything means what it meant, the change is reloadable if and only if the routing text is byte for byte the same or both routing sections are there and decode to an object or null; the diff then holds nothing but the routing, and that only when its bytes differ |
| `HotPatch.SpacedRoutingIsReplaced` | internal/xray/hot_diff.go:346-363 | An input: one more space in the routing section still makes a diff that replaces the routing |
| `HotPatch.NullRoutingRestarts` | internal/xray/hot_diff.go:350-354 | An input: going from an absent routing section to null, which means the same, needs a full restart |
| `HotPatch.EmptyDiffMeansSameService` | internal/xray/hot_diff.go:34-42 | An empty diff is only produced when the running core already serves the new config |
| `TrafficCounters.XrayApi.GetTraffic` | internal/xray/api.go:736-789 | One poll: baselines and the two result maps after any response; the first poll, and a failed one, report nothing |
| `TrafficCounters.RecordedTags` | internal/xray/api.go:848-872 | There is a record under a tag if and only if some inbound or outbound counter of the response names it and it is not api |
| `TrafficCounters.TagRecordIdentity` | internal/xray/api.go:848-872 | A record carries the tag it is under, and is an inbound's or an outbound's as the first counter of that tag in the response is |
| `TrafficCounters.ClientRecordIdentity` | internal/xray/api.go:875-890 | There is a record under an email if and only if some client counter names it, and the record carries that email |
| `TrafficCounters.ClientBytes` | internal/xray/api.go:754-774 | A client's record says of each of its counters the growth since the baseline, and the whole count without a baseline or after the counter went back |
| `TrafficCounters.TagBytes` | internal/xray/api.go:754-774 | So does a tag's record of each of its counters that has no other of its direction behind it |
| `TrafficCounters.BaselinesKept` | internal/xray/api.go:776-786 | The baseline of a counter missing from a response is dropped if and only if more than twice as many baselines as counters would be kept, and is unchanged otherwise |
| `TrafficCounters.BaselinesStayBounded` | internal/xray/api.go:776-786 | After a response of n counters, n > 0, the baseline map holds at most 2n entries |
| `TrafficCounters.NeverOvercounts` | internal/xray/api.go:754-786 | In every run of polls, core restarts, deleted and re-created counters and prunes, the deltas reported for a counter never total more than the bytes it counted after its baseline, and exactly that after a poll for a counter that never dropped or vanished |
| `TrafficCounters.AccruedIsHanded` | internal/xray/api.go:759-774 | The ledger of a run and the records of a poll speak of the same deltas |
| `TrafficCounters.ClientRecordIsExact` | internal/xray/api.go:875-890 | A client's record holds exactly the deltas of the client's two counters |
| `TrafficCounters.TagRecordIsLater` | internal/xray/api.go:848-872 | The record under a tag holds the delta of whichever of the inbound and outbound counters of that tag comes later |
| `TrafficCounters.TagRecordAddsUpExactly` | internal/xray/api.go:848-872 | The bytes of an inbound and an outbound under one tag add up if and only if they do not both appear or the one listed first accrued nothing |
| `TrafficCounters.SharedTagLosesBytes` | internal/xray/api.go:848-872 | An input where they do not: 5 and 7 bytes under one tag are reported as 7 |
| `MtgFingerprint.StructuralFingerprintExact` | internal/mtproto/manager.go:86-102 | When the fields of one of two instances hold no separator, whatever the other holds, the structural fingerprints differ if and only if the structures do |
| `MtgFingerprint.StructuralFingerprintCollides` | internal/mtproto/manager.go:86-102 | For any instance, two variants with a separator in a field that differ and share a fingerprint |
| `MtgFingerprint.ComputeSecretsFingerprint` | internal/mtproto/manager.go:109-116 | The loop and sort compute the sorted, joined entry texts |
| `MtgFingerprint.SecretsFingerprintIgnoresOrder` | internal/mtproto/manager.go:104-116 | A reordered client list has the same fingerprint |
| `MtgFingerprint.SecretsFingerprintExact` | internal/mtproto/manager.go:104-116 | For entries without a bar in their texts and without an equals sign in secret and tag (a name may hold one), the fingerprints differ if and only if the bags of entries do |
| `MtgFingerprint.ServableIsClean` | internal/database/model/model.go:592-634 | With a hexadecimal secret and advertising tag, as the panel makes and checks them, an entry holds no separator where it matters if and only if its name holds no bar |
| `MtgFingerprint.SecretsFingerprintCollides` | internal/mtproto/manager.go:109-116 | For any two secrets, two clients and one client whose name spells the first of them out, bar included, share a fingerprint |
| `MtgManager.Manager.SweepOrphansLocked` | internal/mtproto/manager.go:262-270 | Kills every process the first time, and does nothing afterwards |
| `MtgManager.Manager.EnsureLocked` | internal/mtproto/manager.go:297-349 | Noop, reload or restart by the two fingerprints, with a refused or unconfirmed reload falling through to a restart, for every outcome of the outside world |
| `MtgManager.Manager.EnsureOne` | internal/mtproto/manager.go:251-256 | Sweeps before the first ensure |
| `MtgManager.Manager.Remove` | internal/mtproto/manager.go:352-361 | Stops and forgets one inbound's process and leaves the others alone |
| `MtgManager.Manager.ReconcileAll` | internal/mtproto/manager.go:366-386 | Sweep, forget what is no longer desired in any order, ensure each desired instance in turn |
| `MtgManager.Manager.StopAll` | internal/mtproto/manager.go:389-397 | Stops and forgets every process in any order |
| `MtgReconcile.EveryRunIsGood` | internal/mtproto/manager.go:297-349 | In every run of ensures, removals, reconciliations, stops and crashes, each entry's two fingerprints are those of the configuration its process last really loaded, no process has two entries, and at most one sweep has happened |
| `MtgReconcile.NoStrays` | internal/mtproto/manager.go:251-397 | In every run in which the stops succeed, whatever else fails, every mtg process alive after the first sweep belongs to an entry |
| `MtgReconcile.ForgetExactly` | internal/mtproto/manager.go:352-397 | Forgetting inbounds stops exactly the processes of those whose stop does not fail, and drops the entries of all of them |
| `MtgReconcile.ReplacedIsStopped` | internal/mtproto/manager.go:313-330 | A process that an ensure replaces is stopped unless its stop fails |
| `MtgReconcile.SweepSparesOwn` | internal/mtproto/manager.go:258-270 | Once the manager owns a process the orphan sweep does nothing |
| `MtgReconcile.EnsureEstablishes` | internal/mtproto/manager.go:297-349 | A successful ensure leaves the instance running with the fingerprints it asks for |
| `MtgReconcile.EnsureSucceedsExactly` | internal/mtproto/manager.go:297-349 | An ensure succeeds if and only if the entry runs and matches; or runs with its structure, the rewrite worked and the update was confirmed or a new process came up; or nothing runs with the structure and a new process came up, that is, port, token, write and start all worked |
| `MtgReconcile.EntryAfterEnsure` | internal/mtproto/manager.go:331-349 | A surviving process keeps its port, token and counters; a new one has those it was given, and no counters yet |
| `MtgReconcile.ProcessSurvivesIff` | internal/mtproto/manager.go:287-349 | A successful ensure keeps the process if and only if it is alive with the same structure and the change of secrets, if any, was confirmed live; a failed one changes nothing or leaves no entry |
| `MtgReconcile.EnsureKeepsOthers` | internal/mtproto/manager.go:297-349 | Ensuring one inbound leaves every other inbound's entry and process alone |
| `MtgReconcile.EnsureLeavesAlone` | internal/mtproto/manager.go:287-312 | An instance that already matches is left alone whatever the outside world would have answered |
| `MtgReconcile.ReconcileConverges` | internal/mtproto/manager.go:366-386 | After a reconciliation only desired ids are managed, and each desired instance failed to ensure or runs with its fingerprints and tag |
| `MtgReconcile.ReconcileMatchesAll` | internal/mtproto/manager.go:366-386 | When ports, tokens, writes, rewrites and starts all work, one reconciliation leaves exactly the desired ids managed, each running with its fingerprints and tag |
| `MtgReconcile.SecondReconcileIsQuiet` | internal/mtproto/manager.go:287-386 | A second reconciliation with the secrets in any order keeps the same process and what it loaded, under the new tag |
| `MtgReconcile.AllMatchedIsQuiet` | internal/mtproto/manager.go:366-386 | When everything desired matches, ensuring it all starts, reloads and stops nothing |
| `MtgReconcile.ManagerPrintsIgnoreOrder` | internal/mtproto/manager.go:86-116 | The manager's own fingerprints depend neither on the order of secrets nor on the tag |
| `MtgTraffic.FoldStats` | internal/mtproto/manager.go:425-452 | One scraped answer: the new baselines are its bytes in and out, a record says for a client seen before how far bytes in (up) and bytes out (down) grew, each client that grew has exactly one, and the clients with connections are online |
| `MtgTraffic.TotalIsGain` | internal/mtproto/manager.go:431-451 | What the records add up to for a client is its growth since the baseline, a counter that went backwards counting nothing |
| `MtgTraffic.CollectNeverOvercounts` | internal/mtproto/manager.go:402-461 | In every interleaving of snapshot, unlocked scrape and store-back with restarts, removals, dropped users and traffic, the bytes reported for a process, client and direction are natural numbers that never exceed what the process counted, even when a stale baseline is stored onto a replacement process |
| `MtgAccounting.NothingIsLost` | internal/mtproto/manager.go:402-461 | In every interleaving, from when the collector has once seen a client of a process and for as long as the process is neither restarted nor removed and keeps the client, every byte counted is reported or is what the next scrape brings, whatever scrapes fail and whatever happens to other inbounds |
| `EventBus.Bus.Subscribe` | internal/eventbus/bus.go:58-80 | Replaces a subscriber of the same id, closing its quit channel, and does nothing once stopped |
| `EventBus.Bus.Unsubscribe` | internal/eventbus/bus.go:83-93 | Drops the first subscriber with the id and closes its quit channel; an unknown id changes nothing |
| `EventBus.Bus.Publish` | internal/eventbus/bus.go:97-106 | Accepts the event when the channel has room and drops it otherwise |
| `EventBus.Bus.FanOutLoop` | internal/eventbus/bus.go:121-130 | Offers the event to every registered subscriber in turn without blocking |
| `EventBus.Bus.Deliver` | internal/eventbus/bus.go:140-145 | Takes the oldest queued event and hands it to the handler |
| `EventBus.Bus.BeginStop` | internal/eventbus/bus.go:169-173 | Sets the stop flag under the lock, then closes done |
| `EventBusSafety.StepKeepsConserved` | internal/eventbus/bus.go:97-136 | Events fanned out, the event in hand and the channel are together, in order, exactly the accepted publications, and the channel stays within its bound |
| `EventBusSafety.OfferFits` | internal/eventbus/bus.go:121-130 | An offer keeps what a subscriber has had a rising subsequence of what it was offered |
| `EventBusSafety.TrailsGrow` | internal/eventbus/bus.go:97-152 | No step takes an event back: what a subscriber was delivered and has queued only grows at the end |
| `EventBusSafety.DeliveryIsOrdered` | internal/eventbus/bus.go:108-152 | In every run what a subscriber was delivered, followed by its queue, is a subsequence in publication order without duplicates of the events fanned out since it subscribed, and all of them when its queue was never full; both buffers stay within their bounds |
| `EventBusSafety.NothingLost` | internal/eventbus/bus.go:95-152 | In every run in which, at every earlier state, the channel held fewer than its capacity (256 by default) and the subscriber's queue fewer than 64 events, every publication was accepted, and what a registered subscriber was delivered, its queue, the event in hand and the channel are exactly the publications since it subscribed, in order |
| `EventBusSafety.MissesOnlyWhenFull` | internal/eventbus/bus.go:121-130 | A step makes a subscriber miss an event only when its queue holds 64 |
| `EventBusSafety.RefusesOnlyWhenFull` | internal/eventbus/bus.go:97-106 | A publication is dropped if and only if the channel is full |
| `EventBusSafety.SubscribeRegisters` | internal/eventbus/bus.go:58-80 | After Subscribe the newcomer is registered last with nothing queued, who had its id no longer is, and the others stay as they were; once stopped nothing happens |
| `EventBusSafety.UnsubscribeRemoves` | internal/eventbus/bus.go:83-93 | After Unsubscribe nobody registered has the id, its quit channel is closed, and the others stay as they were |
| `EventBusSafety.FanOutReachesAll` | internal/eventbus/bus.go:120-131 | The fan-out loop offers its event once to each registered subscriber from the next one on, and to nobody else |
| `EventBusSafety.CleanLifecycle` | internal/eventbus/bus.go:54-93 | In every run ids stay distinct, a quit channel is closed once and exactly when its subscriber leaves the list, done is closed at most once, the wait group counts the live dispatcher and workers, and Stop returns only after all have exited |
| `EventBusSafety.NoAddAfterStop` | internal/eventbus/bus.go:164-175 | After the stop flag is set, over any further steps, no worker starts and the wait group only falls |
| `EventBusProgress.ComesToRest` | internal/eventbus/bus.go:112-152 | With no more calls the dispatcher, the workers and a waiting Stop come to rest after a bounded number of steps, in whatever order they are scheduled |
| `EventBusProgress.StopReturns` | internal/eventbus/bus.go:169-175 | Stop never hangs: once done is closed they can only come to rest with Stop returned, whatever was queued or in progress |
| `EventBusProgress.AllIsDelivered` | internal/eventbus/bus.go:112-152 | Before a stop they only come to rest when every accepted event has been fanned out and every event queued for a registered subscriber delivered |
| `EventBusProgress.CallersAreServed` | internal/eventbus/bus.go:97-130 | In every run publishing is possible at once, and the lock is free for subscribing, unsubscribing and stopping as soon as the fan-out under way has gone once over the subscribers |
| `RateLimiter.Limiter.PruneLocked` | internal/eventbus/filter.go:42-52 | At most once per cooldown, drops exactly the keys whose cooldown is over |
| `RateLimiter.Limiter.Allow` | internal/eventbus/filter.go:25-36 | Sweeps, then refuses exactly a key let through within the cooldown, and otherwise lets it through and records the time |
| `RateLimiter.ForgettingIsInvisible` | internal/eventbus/filter.go:38-52 | With clock readings in lock order every answer is the one a limiter that never forgets would give |
| `RateLimiter.AllowedExactly` | internal/eventbus/filter.go:24-52 | For any clock readings: after the last call let through for its key, a call is let through if and only if the cooldown has gone by since, or a sweep between the two, at its own reading, found that it had |
| `RateLimiter.FirstIsAllowed` | internal/eventbus/filter.go:24-36 | For any clock readings a key that was never let through is let through |
| `RateLimiter.KeysTellApart` | internal/eventbus/filter.go:25-26 | Two events share a key if and only if they are of one type and from one source, as no event type holds a colon |
| `RateLimiter.FirstOfItsKindIsAllowed` | internal/eventbus/filter.go:24-36 | For any clock readings an event of which none of its type and source was let through before is let through, whatever else was sent |
| `RateLimiter.TooCloseExactly` | internal/eventbus/filter.go:24-52 | For any clock readings two calls let through in a row for one key are closer than the cooldown if and only if a sweep between them had a reading a cooldown after the first and so ahead of the second's |
| `RateLimiter.AllowedAreApart` | internal/eventbus/filter.go:24-36 | With clock readings in lock order two events let through for one key are at least one cooldown apart |
| `RateLimiter.EventsAreApart` | internal/eventbus/filter.go:24-36 | So are two events of one type and source |
| `RateLimiter.ReadingsOutOfLockOrder` | internal/eventbus/filter.go:25-36 | The clock is read before the lock is taken: three calls whose lock order differs from their readings, two of them let through closer than the cooldown |
| `SubscriptionCache.Cache.LookUpLocked` | internal/sub/external_subscription.go:55-67 | A live entry, a flight to join, or a new flight with the stale links to fall back on |
| `SubscriptionCache.Cache.Oldest` | internal/sub/external_subscription.go:94-104 | The scan finds a URL other than the kept one with the oldest entry, in whatever order the map is walked, or none when there is no other |
| `SubscriptionCache.Cache.TrimLocked` | internal/sub/external_subscription.go:92-110 | Terminates with at most 256 entries, keeps the given URL, touches nothing within the bound, and evicts only entries no newer than every other survivor |
| `SubscriptionCache.Cache.StoreLocked` | internal/sub/external_subscription.go:84-87 | The stored entry is in the cache afterwards, within the bound, for the price of entries no newer than the other survivors |
| `SubscriptionCache.OneFlightPerUrl` | internal/sub/external_subscription.go:60-74 | In every interleaving no two calls fetch the same URL at once |
| `SubscriptionCache.CacheStaysBounded` | internal/sub/external_subscription.go:84-110 | In every interleaving the cache holds at most 256 entries whenever the lock is free, each the outcome of a successful fetch of its URL at the time it says |
| `SubscriptionCache.WaitersShareTheResult` | internal/sub/external_subscription.go:60-64 | Everyone who took part in a flight gets the same links |
| `SubscriptionCache.ResultsAreGenuine` | internal/sub/external_subscription.go:46-90 | What a call returns is nothing or the outcome of an earlier successful fetch of that same URL; straight from the cache it is less than five minutes old |
| `SubscriptionCache.LeaderReturnsItsOutcome` | internal/sub/external_subscription.go:55-90 | In every interleaving a call that made a request of its own returns what that request brought, told from the events of the run: the links it fetched, or after a failure the links in the cache when it entered, or nothing |
| `SubscriptionCache.EntersExactly` | internal/sub/external_subscription.go:55-69 | A call gets the live entry of its URL, under 300 seconds old; failing that it waits for the flight under way; failing that it starts one, with the old links to fall back on; only then does anything change |
| `SubscriptionCache.StoredIsServed` | internal/sub/external_subscription.go:49-90 | In every run, links that a call stored are what every call for that URL gets in the next 300 seconds, at once and without a request, for as long as the cache keeps the URL |
| `SubscriptionCache.EvictedOnlyWhenFull` | internal/sub/external_subscription.go:84-110 | Storing evicts an entry only when there would be more than 256, and never the one stored |
| `SubscriptionCache.LeaderCanFinish` | internal/sub/external_subscription.go:76-90 | A leader with its links in hand can always finish, and then returns those |
| `SubscriptionCache.NoOrphanedWaiter` | internal/sub/external_subscription.go:60-74 | Whoever waits can wake up or waits for a call that is still at work |
| `Jalali.GregorianToJalali` | internal/sub/remark_vars.go:410-451 | Terminates for every input with a valid Jalali date as many days from 1402-10-11 as the input is Julian days from 2024-01-01 |
| `Jalali.JdnNext` | internal/sub/remark_vars.go:411-415 | The Julian day formula counts days: the next Gregorian day has the next number |
| `Jalali.NextIsOneMore` | internal/sub/remark_vars.go:453-464 | The next Jalali day has the next day number |
| `Jalali.NextDayIsNextDay` | internal/sub/remark_vars.go:407-451 | The next Gregorian day always maps to the next Jalali day |
| `Jalali.ConversionKeepsOrder` | internal/sub/remark_vars.go:407-451 | One Gregorian date is before another if and only if their Jalali dates are in that order |
| `Jalali.ConversionIsUnique` | internal/sub/remark_vars.go:407-451 | The Jalali date is determined by the Gregorian one |
| `Jalali.ReferenceDates` | internal/sub/remark_vars.go:407-419 | 2024-01-01 is 1402-10-11, and 2024-03-20 is 1403-01-01 |
| `Jalali.ConvertsExactly` | internal/sub/remark_vars.go:407-474 | A date converts to a Jalali date if and only if that is a date of the calendar and its number in closed form (365 days a year, one more for each of the 8 leap years in 33, months of 31 and 30 days) is as far from that of the reference day as their Julian days are apart |
| `Jalali.PastDates` | internal/sub/remark_vars_test.go:508-523 | The two days of the past that the tests name convert as they say |
| `Jalali.EightLeapYearsIn33` | internal/sub/remark_vars.go:466-474 | Any 33 consecutive years hold 8 leap years |
| `RemarkText.TextScan` | internal/sub/remark_vars.go:54-61 | The leftmost scan for placeholders loses no text |
| `RemarkText.ParseRender` | internal/sub/remark_vars.go:54-61 | A text put together from literal text and placeholders is cut into exactly those again |
| `RemarkText.NameCharacters` | internal/sub/remark_vars.go:38-41 | Token names are made of capital letters and underscores |
| `RemarkText.TokensAreExact` | internal/sub/remark_vars.go:54-61 | The range of every token is that of its placeholder in the segment |
| `RemarkFilter.AppendKeptRun` | internal/sub/remark_vars.go:592-608 | A run without tokens gives nothing; otherwise the run without the literal text that touches a removed token, trimmed |
| `RemarkFilter.FilterRemarkSegment` | internal/sub/remark_vars.go:567-590 | The loop over runs computes the filter along the tokens: literal text between neighbours kept, a space where something was removed, the ends trimmed |
| `RemarkFilter.FilterRemarkTemplate` | internal/sub/remark_vars.go:550-559 | Computes the filter of every segment between bars, leaving out those it empties |
| `RemarkFilterLaws.FilterKeepsTheRest` | internal/sub/remark_vars.go:550-608 | The tokens of a filtered template are exactly the original tokens, in order, minus the removed set |
| `RemarkFilterLaws.FilterTwice` | internal/sub/remark_vars.go:550-608 | Filtering by one set and then another gives the very text that filtering by their union gives |
| `RemarkFilterLaws.FilterIsIdempotent` | internal/sub/remark_vars.go:550-608 | Filtering twice by one set changes nothing more |
| `RemarkSegments.LeftExactly` | internal/sub/remark_vars.go:561-608 | Filtering leaves of a segment exactly the tokens not removed; between two of them the text that stood there if they were neighbours and a space otherwise, in front only what stood before the first token if that stays, at the end only what stood behind the last token if that stays, both trimmed; text alone is trimmed |
| `RemarkSegments.FiltersSegmentBySegment` | internal/sub/remark_vars.go:550-559 | A template is filtered segment by segment between the bars, and bars join the segments of which something is left |
| `RemarkService.SubService.EffectiveTemplate` | internal/sub/remark_vars.go:610-624 | The full template on a client's first link and the filtered one afterwards |
| `RemarkService.FirstLinkOnly` | internal/sub/remark_vars.go:531-538 | Over any sequence of body links each client's first link carries all tokens, every later one exactly those outside the removed set, so a removed token is on a first link only |
| `RemarkService.RepeatedLinkShows` | internal/sub/remark_vars.go:515-538 | A token is on a link that is not its client's first if and only if the template has it, it is none of the sixteen that tell usage, and, if it is EMAIL or USERNAME, identity is wanted on all links |
| `RemarkBraces.TranslateUISingleBrackets` | internal/sub/remark_vars.go:100-124 | The loop computes the translation, position by position |
| `RemarkBraces.PlaceholdersStay` | internal/sub/remark_vars.go:97-124 | A {{TOKEN}} goes through the translation untouched wherever it stands, and what is around it is translated on its own |
| `RemarkBraces.NamesTranslate` | internal/sub/remark_vars.go:97-124 | A name of the table in single braces becomes the placeholder it stands for wherever it is, and what is around it is translated on its own |
| `RemarkBraces.OthersStay` | internal/sub/remark_vars.go:97-124 | A text without such a name stays as it is |
| `RemarkBraces.UITokensAreClean` | internal/sub/remark_vars.go:81-95 | The names of the user interface and what they stand for are token names, as the laws of the translation ask |
| `RemarkPipeline.TranslateTwice` | internal/sub/remark_vars.go:97-124 | Translating an already translated text changes nothing |
| `RemarkPipeline.SecondTranslationIsIdle` | internal/sub/remark_vars.go:638-652 | Whatever link it is for, filtered or not, the template handed to the expansion comes out of its second translation as it went in |
| `RemarkExpand.ExpandOne` | internal/sub/remark_vars.go:163-191 | The loop computes the expansion along the tokens, a lone hyphen going when nothing was written before it or nothing follows, and the drop of a segment without a value worth showing |
| `RemarkSegments.SegmentExpandsExactly` | internal/sub/remark_vars.go:163-191 | A segment is spelled out token by token: its value and the text behind it, a lone hyphen left out if and only if nothing was written up to it or the next value is empty; it is dropped if and only if it has tokens and none with a value other than nothing or an unlimited quota or expiry |
| `RemarkSegments.ExpandsSegmentBySegment` | internal/sub/remark_vars.go:126-146 | For every template: after the translation of its braces the segments between the bars that are kept are spelled out in order and joined by bars |
| `RemarkSegments.EveryTemplateHasSegments` | internal/sub/remark_vars.go:54-61 | Every template is made of segments of that kind, joined by bars |
| `RemarkFallback.ExpandRemark` | internal/sub/remark_vars.go:133-146 | Computes the whole expansion: translation, early return without placeholders, and the segments that are kept |
| `RemarkFallback.FallbackRemark` | internal/sub/service.go:1882-1890 | The non-empty parts joined by hyphens |
| `RemarkFallback.HyphenatedExpands` | internal/sub/remark_vars.go:148-191 | For any tokens and any values, {{T1}}-{{T2}}-...-{{Tn}} expands to the plain remark of the values if some value is worth showing, and to nothing otherwise; values are never scanned again |
| `RemarkFallback.TemplateAgreesExactly` | internal/sub/remark_vars.go:163-191 | The template and the plain remark agree if and only if some value is worth showing or every value is empty |
| `RemarkFallback.UnlimitedAloneIsLost` | internal/sub/remark_vars.go:163-191 | An input where they differ: for a client without expiry the days left alone expand to nothing, where the plain remark shows the unlimited mark |
| `RemarkFallback.TemplateAgreesWithFallback` | internal/sub/service.go:1882-1890 | For tokens outside the unlimited-drop set they always agree |
| `OnlineWindow.Sweep` | internal/xray/process.go:433-441 | Keeps and lists exactly the keys within the window, each once, in whatever order the map is walked |
| `OnlineWindow.Process.RefreshLocalOnline` | internal/xray/process.go:423-457 | Afterwards each map holds exactly the keys reported now or still within the window, with their latest time, and the lists shown hold each of them once |
| `OnlineWindow.OnlineExactly` | internal/xray/process.go:423-457 | For any clock: a key is online if and only if its latest report stayed within the grace window at every poll since, and its remembered time is that of that report |
| `OnlineWindow.NeverReported` | internal/xray/process.go:423-441 | For any clock a key that no poll reported is not online |
| `OnlineWindow.OnlineIsRecent` | internal/xray/process.go:417-457 | With a clock that does not go back, a key is online exactly when some poll reported it within the grace window, and its remembered time is that of its latest report |
| `OnlineWindow.ClockGoesBack` | internal/xray/process.go:423-441 | When the clock goes back a client can stay out although it was reported within the window |
| `OnlineWindow.Process.GetOnlineClients` | internal/xray/process.go:320-348 | The union of local and remote clients, each once |
| `OnlineWindow.Process.GetMergedNodeTrees` | internal/xray/process.go:371-399 | Under every named GUID with clients, and no other, the union of what the nodes report under it, each once |
| `SqlDump.SqliteLiteral` | internal/database/dump_sqlite.go:176-205 | The literal of a value, with the loop that writes a blob in hexadecimal |
| `SqlDump.DumpTableData` | internal/database/dump_sqlite.go:140-173 | One INSERT per row in order, values separated by commas |
| `SqlDump.LiteralRoundTrip` | internal/database/dump_sqlite.go:175-209 | Every literal reads back as the value it stands for and nothing more is read, whatever the value holds (section 5.3 of ISO/IEC 9075-2) |
| `SqlDump.DumpRoundTrip` | internal/database/dump_sqlite.go:139-173 | Reading the dump of a table gives its rows back, in order, whatever commas, quotes, parentheses, newlines or statements their text holds |
| `SqlDump.RowComesBackExactly` | internal/database/dump_sqlite.go:175-205 | A row comes back as it was if and only if it holds no boolean and no blob that is valid UTF-8 |
| `Utf8.ValidExactly` | internal/database/dump_sqlite.go:190-197 | A blob is written as text if and only if its bytes encode a sequence of characters (section 3 of RFC 3629) |
| `ProxyNames.PickName` | internal/sub/clash_service.go:126-132 | The suffix search terminates with the first candidate not in use |
| `ProxyNames.EnsureUniqueProxyNames` | internal/sub/clash_service.go:119-136 | Every proxy gets the first free candidate of its base given the names before it, and nothing else changes |
| `ProxyNames.NamesAreUnique` | internal/sub/clash_service.go:115-136 | Names are non-empty and pairwise distinct, each its base or base-n with n at least 2, and a base not used before is kept |
| `ProxyNames.NamesAreBuiltOn` | internal/sub/clash_service.go:119-145 | A name is built on what the proxy was called, else on its kind, server and port, else on its number in the list from one; that is kept if and only if no proxy before has it, and numbered otherwise |
| `ProxyNames.UniqueNamesStay` | internal/sub/clash_service.go:115-136 | Names that already are non-empty and distinct stay, so a second run changes nothing |
| `TunnelMonitor.Monitor.Step` | internal/tunnelmonitor/monitor.go:168-205 | One tick: a good probe clears the count; too few failures, a running cooldown or a missing recovery do nothing; otherwise one recovery is tried and, if it works, its time kept and the count cleared |
| `TunnelMonitor.RecoversExactlyWhenDue` | internal/tunnelmonitor/monitor.go:168-205 | In every history the monitor recovers exactly when the probe failed, so did enough probes in a row before it, the cooldown is over, and the recovery is configured and succeeds |
| `TunnelMonitor.RecoversExactly` | internal/tunnelmonitor/monitor.go:168-205 | Told from the probes and the configured numbers alone: a tick brings a recovery if and only if it ends the configured number of failed probes (three if none is configured) with no recovery among them, comes the configured time (five minutes if under a second) after every earlier recovery, and recovering is configured and works |
| `TunnelMonitor.RecoveriesAreApart` | internal/tunnelmonitor/monitor.go:179-203 | Any two recoveries are at least one cooldown apart, whatever the clock does |
| `TunnelMonitor.RecoveryNeedsAThreshold` | internal/tunnelmonitor/monitor.go:172-178 | Each recovery ends a full threshold of failed probes in a row with no other recovery among them |

## Left out

- `MtgTraffic.CollectNeverOvercounts`: holds for one collector at a time, as the job in internal/web/job/mtproto_job.go runs it; two overlapping collections would report the same growth twice. The port and the random token of a snapshot are taken to identify one process.
- `XrayConfig.SplitSettingsClients`: JSON field names are matched exactly, where Go's decoder into structs also matches them without regard to case; the decoder's nesting limit is not modelled.
- `HotDiff.ComputeHotDiff`: added inbounds, outbounds and clients are carried as decoded values, not as the bytes sent over gRPC.
- `HotPatch.PatchCorrect`: the core is its handlers, users, outbound list and router; what the core does with them, and connections in flight, are not modelled. Every call is taken to be answered by the rule of the modelled core; the applier's retry on an already existing handler or user is never needed under that rule and is not modelled. A client field that is null, false, 0 or empty counts as absent.
- `HotAccounts.CarriedExactly`: the accounts of Shadowsocks, Hysteria and WireGuard users are not modelled, since the diff adds users of vless, vmess and trojan inbounds only.
- `TrafficCounters.XrayApi.GetTraffic`: a counter name is given by its parts, not cut out of text by the regular expression; byte counts are unbounded integers.
- `EventBusSafety.CleanLifecycle`: Stop is called once, as its comment asks; a second call would close a closed channel.
- `RemarkExpand.ExpandOne`: the value of each token for a client is a parameter; traffic, status and date labels are not modelled, nor is the inbound's remark shown when an expansion comes out blank.
- `ProxyNames.EnsureUniqueProxyNames`: proxies are values in an array, so the same map object listed twice is not modelled.
- `SqlDump.DumpRoundTrip`: no floating-point values, since an integral float prints like an integer; the table name holds no double quote; the reader covers the literals the dump writes and not all of SQLite; column types printed by their default format, such as times, are not modelled. The restore (internal/database/dump_sqlite.go:127) hands the script to SQLite, which stops at a NUL byte: a dump with text or a UTF-8 blob that holds one does not come back through it.
- `SubscriptionCache.ResultsAreGenuine`: Go's nil and empty lists of links are one value here.
- Text is a sequence of characters; Go's strings are bytes, which matters only for the SQL dump, where a character is a byte.
- The text of the mtg configuration file, share links, the web and subscription servers, database migrations, settings and the user interface: plumbing or per-field facts.
- Token names that the user interface offers are translated through a table; the laws hold for every table of token names, of which the panel's is one.
