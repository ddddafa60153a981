# Data consumer: a verified model

A Dafny model of the parts of the data consumer whose correctness is not visible in any single function, with
proofs over all their inputs, runs and interleavings.

**Heartbeat tracker.** `Heartbeat` is a state machine whose steps are the tracker's critical sections, calls that
leave the process and channel operations: telemetry (the clock reading and the commit under the lock are two steps),
decommissions, the phases of a Tick (begin, snapshot, evaluate and publish, dispatch, mark, end), the worker and
`Close`. Answers of the outside world are labels of the steps, and a log of events records the run.
`HeartbeatHistory`, `HeartbeatAlerts`, `HeartbeatSilence`, `HeartbeatStatus` and `HeartbeatExternal` prove properties of every reachable
state. `HeartbeatTracker` is the tracker as an object, with entries that are updated in place and a Tick that loops
over its snapshot; each of its methods moves a ghost copy of the machine along, and its validity says that the object
shows a reachable state, so that the theorems hold of it.

**Request-reply client and alert configuration cache.** `RequestReply` has the retry loop and the lifecycle query,
over a network that is a parameter; `AlertConfigCache` the index, the snapshot swap and the initial fetch with its
growing waits in 64-bit arithmetic.

**AsyncAPI filter.** `SpecTree` models documents as finite trees, `SpecClosure` the worklist, `SpecPrune` the pruning
of components and what it guarantees, `SpecFilter` the two filters, `SpecAgain` what filtering twice does.

**Telemetry consumer.** `Telemetry` is a state machine of callback, bounded channel, flush loop and cancellation, in
which the write and the disposal of each message are separate steps; `TelemetrySafety` and `TelemetryDelivery` prove
at-least-once delivery, conservation and independence of the schedule. `TelemetryConsumer` is the consumer as an
object with one buffer whose storage every flush reuses.

`Composition` puts the pieces together; `Common` holds what all share.

Main results to read first: `HeartbeatAlerts.CameOnlineBetweenAlerts`, `HeartbeatStatus.SentAgreesWithMap`,
`HeartbeatSilence.SilentExactlyWhenNothingIsToCome`, `HeartbeatStatus.UpdatesAlternate`,
`HeartbeatStatus.UpdatesConserved`, `HeartbeatTracker.Tracker.Tick`, `SpecClosure.CollectRefsTransitive` with
`SpecClosure.ClosureIsLeast`, `SpecAgain.TwiceV2`, `SpecAgain.ClosedAndMinimalV3`, `TelemetryDelivery.OncePerMessage`,
`TelemetryDelivery.ScheduleDoesNotMatter`, `AlertConfigCache.FaithfulExactlyWhenInjective`,
`AlertConfigCache.ClosedFormExactlyWhenSafe`, `Composition.AlertCandidate`.

## Assumptions

- Ticks do not overlap. `Tick` has no guard of its own; the timer goroutine calls it synchronously
  (internal/adapter/driving/heartbeat_tick_timer.go:31-39).
- The clock does not go back.
- Nothing is sent after `Close`: the channel is closed there (internal/service/heartbeat_tracker.go:103), and a send
  would panic. Telemetry that only refreshes an entry and Ticks that alert nobody are fine.
- Telemetry calls may overlap unless a statement says they are serial for each key.
- Names of components contain no slash (Components Object of AsyncAPI 2.6.0) where a statement says so.
- Statements about the Management API's view need gateway ids that only one tracked key uses, as updates carry no
  tenant (internal/domain/model/model.go:86-90).

## Where the code and its comments differ

The model follows the code.

- internal/service/heartbeat_tracker.go:121 says telemetry is persisted before the handler is called. The consumer
  calls the handler first and writes the row later (internal/adapter/driving/nats_telemetry_consumer.go:236-240).
- internal/adapter/driving/nats_telemetry_consumer.go:129-130 distinguishes transient from permanent failures; a flush
  terminates both (lines 205-209). With the tracker as handler no failure is transient, and the paths agree
  (`TelemetryDelivery.TerminatedExactlyWhenMalformed`, `TelemetryDelivery.PathsAgreeExactly`).
- internal/service/heartbeat_tracker.go:239-245 explains why an entry is always marked Offline after a publish: so that
  the map agrees with what the external system was told. It does, except after a decommission and registration inside
  the window (`HeartbeatStatus.SentAgreesWithMap`, `HeartbeatStatus.LateRegistrationDisagrees`).

The comment at internal/service/heartbeat_tracker.go:163, that Ticks after a decommission ignore the gateway, is right
(`HeartbeatAlerts.DecommissionSilences`); when a Tick under way at that moment may still alert it is the subject of
`HeartbeatSilence.SilentExactlyWhenNothingIsToCome`.

## Model

| member | source | states |
|---|---|---|
| `HeartbeatAlerts.CameOnlineBetweenAlerts` | internal/service/heartbeat_tracker.go:174-252 | In every run of telemetry, decommissions, Tick phases and the status worker: between two successful alerts for a key lies a transition of that key to Online, whatever fell into the publish-to-mark window |
| `HeartbeatAlerts.AlertIsJustified` | internal/service/heartbeat_tracker.go:176-227 | Every alert carries the time of the latest telemetry for its key before the snapshot of its Tick, with no decommission in between, is not sent within the grace period, and not before the timeout has passed if the timeout is at most 9223372036854 ms |
| `HeartbeatAlerts.NeverEarlyExactlyWhenItFits` | internal/service/heartbeat_tracker.go:198-203 | For every 64-bit timeout: no alert of any run is early if and only if the timeout is at most 9223372036854 ms; a longer one overflows the duration product, and a run with an early alert exists |
| `HeartbeatAlerts.TrackedAtSnapshot` | internal/service/heartbeat_tracker.go:183-188 | What a snapshot knows of a key is what the latest telemetry before it wrote |
| `HeartbeatAlerts.DecommissionSilences` | internal/service/heartbeat_tracker.go:162-188 | An alert for a decommissioned key by a Tick with a later snapshot needs telemetry for that key between decommission and snapshot; for a Tick under way see HeartbeatSilence.SilentExactlyWhenNothingIsToCome |
| `HeartbeatAlerts.DecommissionDuringTickAlerts` | internal/service/heartbeat_tracker.go:182-231 | A run in which a Tick whose snapshot is older than the decommission still alerts the gateway |
| `HeartbeatSilence.SilentExactlyWhenNothingIsToCome` | internal/service/heartbeat_tracker.go:162-231 | For every reachable state in which a key is not tracked: no continuation without telemetry for it alerts it, if and only if the running Tick has no unevaluated Online entry of that key that some 64-bit timeout makes expire, or is stuck before a closed channel |
| `HeartbeatSilence.CanExpireMeans` | internal/service/heartbeat_tracker.go:198-203 | An entry can expire at a time if and only if some 64-bit timeout, its nanoseconds wrapped, puts its deadline there or earlier: when it was last seen at most 2^63 ns later than that time |
| `HeartbeatSilence.Drive` | internal/service/heartbeat_tracker.go:191-251 | A Tick that holds such an entry can be driven to its alert, whatever it has in hand and before it |
| `HeartbeatAlerts.TrackedKeys` | internal/service/heartbeat_tracker.go:122-169 | A key is tracked if and only if its latest telemetry was not followed by a decommission; the ids stored in an entry are its key |
| `HeartbeatAlerts.LastSeenIsNewest` | internal/service/heartbeat_tracker.go:123-147 | With telemetry calls serial for each key, lastSeen is at least every clock reading of telemetry for the key |
| `HeartbeatAlerts.OverlappingCallsTurnTimeBack` | internal/service/heartbeat_tracker.go:123-147 | For every configuration without calls serial for each key: a run after which lastSeen is older than a time already recorded, because the clock is read before the lock is taken |
| `HeartbeatAlerts.NewestExactlyWhenSerial` | internal/service/heartbeat_tracker.go:123-147 | lastSeen never turns back in any run if and only if telemetry calls are serial for each key |
| `HeartbeatAlerts.AlertInvHolds` | internal/service/heartbeat_tracker.go:122-252 | The invariant behind the alert theorems (armed entries, justified alerts, ordered times) holds after every run |
| `HeartbeatHistory.HistoryInvHolds` | internal/service/heartbeat_tracker.go:122-252 | After every run the map is the fold of the event history, and the unevaluated part of a snapshot consists of the entries that history had at the snapshot, one a key |
| `HeartbeatHistory.TrackedIsLatestHeard` | internal/service/heartbeat_tracker.go:124-169 | An entry's lastSeen is that of the latest telemetry for its key, which no decommission followed |
| `HeartbeatStatus.SentAgreesWithMap` | internal/service/heartbeat_tracker.go:129-157 | Outside its own dispatch-to-mark window, a tracked key's status is the last status update attempted for it if and only if its Offline mark did not hit a registration made after the Offline update |
| `HeartbeatStatus.LateRegistrationDisagrees` | internal/service/heartbeat_tracker.go:233-250 | A run in which a decommissioned gateway registers anew inside the window: the map says Offline, the last update Online |
| `HeartbeatStatus.CameOnlineBetweenOfflines` | internal/service/heartbeat_tracker.go:233-250 | In every run, two Offline updates of a key are separated by a transition of that key to Online |
| `HeartbeatStatus.UpdatesAlternate` | internal/service/heartbeat_tracker.go:129-157 | A key's attempted updates read Online, Offline, Online, ... if and only if it is never registered after a decommission took away an entry reported Online (Online and not in the window of an Offline update, or Offline by a mark that overtook a registration) with no update since, and never recovers from a mark that overtook a registration |
| `HeartbeatStatus.RemovalIsTheCause` | internal/service/heartbeat_tracker.go:129-169 | For an untracked key, the last update was Online if and only if a decommission took away an entry reported Online and no update was attempted since |
| `HeartbeatStatus.OnlineTwiceInARow` | internal/service/heartbeat_tracker.go:129-169 | A run whose updates do not alternate: register, decommission, register sends Online twice in a row |
| `HeartbeatStatus.RegisteredOnceAlternates` | internal/service/heartbeat_tracker.go:129-157 | A key that is not registered again after a decommission gets alternating updates, the last of which is its tracked status outside the window |
| `HeartbeatStatus.LateMarkMeans` | internal/service/heartbeat_tracker.go:239-250 | The recursive reading of an overtaken mark equals its description by positions in the history |
| `HeartbeatStatus.UpdatesConserved` | internal/service/heartbeat_tracker.go:101-117 | In every reachable state: delivered, in hand and queued updates are, in order, the attempted ones without the dropped; their numbers and the drop counter add up; the queue respects its capacity; after the worker's exit everything kept is delivered |
| `HeartbeatStatus.StatusInvHolds` | internal/service/heartbeat_tracker.go:101-263 | The invariant behind the status theorems holds after every run |
| `HeartbeatExternal.ExternalAgreesWithMap` | internal/service/heartbeat_tracker.go:111-117 | Once the worker is idle, the Management API's view of a tracked gateway is the tracker's, if its last update was neither dropped nor refused, its gateway id belongs to one key and no mark overtook a registration |
| `HeartbeatExternal.TrackedWasAttempted` | internal/service/heartbeat_tracker.go:129-143 | For every tracked key there is a last attempted update |
| `HeartbeatExternal.LastAttemptIsLastKept` | internal/domain/model/model.go:85-90 | If a gateway id belongs to one key and its last update was queued, that update is the last word about the gateway id among all updates kept; updates carry no tenant |
| `HeartbeatTracker.Tracker.constructor` | internal/service/heartbeat_tracker.go:72-97 | A new tracker is the initial state of the state machine |
| `HeartbeatTracker.Tracker.Touch` | internal/service/heartbeat_tracker.go:126-157 | The map section of HandleTelemetry updates exactly one entry and reports first-seen, recovered or refreshed |
| `HeartbeatTracker.Tracker.HandleTelemetry` | internal/service/heartbeat_tracker.go:122-160 | The key is tracked, Online and seen just now, all others as before; exactly a first-seen or recovered key has an Online update with its id and time sent; after Close a refresh still works; and the run of the machine it all amounts to |
| `HeartbeatTracker.Tracker.HandleDecommission` | internal/service/heartbeat_tracker.go:164-169 | Exactly the given key leaves the map; no update is sent |
| `HeartbeatTracker.Tracker.DispatchStatusUpdate` | internal/service/heartbeat_tracker.go:256-263 | The send never blocks: a worker waiting at the empty channel gets the update handed over, or the buffer has room and takes it, or the buffer is full and the drop is counted |
| `HeartbeatTracker.Tracker.CopyEntries` | internal/service/heartbeat_tracker.go:183-188 | The snapshot holds a copy of every entry once, in some order of the keys |
| `HeartbeatTracker.Tracker.PassGates` | internal/service/heartbeat_tracker.go:194-231 | An entry is alerted exactly if it is Online, past its 64-bit deadline, not answered as paused, and its publish succeeded; the one Published event of the machine is then its alert |
| `HeartbeatTracker.Tracker.SendOffline` | internal/service/heartbeat_tracker.go:233-237 | The Offline update is handed over, queued or dropped, and the phase moves on to dispatched |
| `HeartbeatTracker.Tracker.MarkAlerted` | internal/service/heartbeat_tracker.go:246-250 | The tracked entry becomes Offline unconditionally and keeps its time, a missing key is not recreated, all others stay as they are, and nothing is published |
| `HeartbeatTracker.Tracker.EvaluateEntry` | internal/service/heartbeat_tracker.go:191-251 | One snapshot entry: alert decision, Published event, map and offered update |
| `HeartbeatTracker.Tracker.EvaluateAll` | internal/service/heartbeat_tracker.go:191-251 | The loop over the snapshot publishes exactly the alerts of the keys that pass the gates, field by field, marks exactly those, and offers their updates in order |
| `HeartbeatTracker.Tracker.Tick` | internal/service/heartbeat_tracker.go:174-252 | An uninterleaved Tick: nothing within grace; else, whatever the map order, exactly the Online keys past their deadline, not paused and published are alerted, once each, with gateway id, lastSeen, timeout and the time of the Tick; exactly those end Offline; the Published events of its run are these alerts in order; a waiting worker gets one of their updates, the buffer the first that fit, the others are dropped |
| `HeartbeatTracker.WholeTick` | internal/service/heartbeat_tracker.go:183-251 | For every enumeration of the map, processing key by key alerts exactly the keys that pass the gates and leaves exactly those Offline |
| `HeartbeatTracker.AlertListMembers` | internal/service/heartbeat_tracker.go:191-231 | The alerts raised over a list of distinct keys are exactly those of its keys that pass the gates, without repetition |
| `HeartbeatTracker.OfferedThen` | internal/service/heartbeat_tracker.go:256-263 | Offering updates to the channel in two portions is offering them at once: at most one is handed over to a waiting worker, of the others the first that fit are taken and the rest dropped |
| `HeartbeatTracker.PublishedSince` | internal/service/heartbeat_tracker.go:222-231 | What was published since some point of the history is what was added to it |
| `HeartbeatTracker.Tracker.DrainAndExit` | internal/service/heartbeat_tracker.go:111-117 | After the channel is closed the worker delivers what is left and exits with nothing queued or in hand |
| `HeartbeatTracker.Tracker.Close` | internal/service/heartbeat_tracker.go:101-106 | After Close all updates ever kept are delivered, in order; a second Close changes nothing |
| `RequestReply.RequestWithRetry` | internal/adapter/driven/nats_rr_client.go:153-183 | Which attempt answers, when a cancelled wait ends the request, when it is exhausted, with the exact numbers of requests and waits; wait k is entry k of the schedule, the last entry repeating |
| `RequestReply.WaitingIsBounded` | internal/adapter/driven/nats_rr_client.go:169-177 | The waits of one request add up to at most the schedule's total |
| `RequestReply.ProductionWaits` | internal/adapter/driven/nats_rr_client.go:49 | The production waits one by one: 1 s, 2 s, then 4 s for every later one |
| `RequestReply.ValidateGatewayLifecycleResponse` | internal/adapter/driven/nats_rr_client.go:127-149 | Accepted exactly if the gateway id is present and matches the one asked for, and the state is one of the four known ones |
| `RequestReply.GetGatewayLifecycle` | internal/adapter/driven/nats_rr_client.go:105-125 | Online, offline, paused or provisioning is returned if and only if an attempt within the limit, all before it failed and waited out, got a reply that decodes, has a non-empty matching gateway id, and has just that text as its state; everything else is an error |
| `AlertConfigCache.LookupIsScan` | internal/adapter/driven/alert_config_cache.go:90-100 | Without a colliding key, the index lookup is the plain scan: last gateway entry, else last tenant entry, else default |
| `AlertConfigCache.ScanMeans` | internal/adapter/driven/alert_config_cache.go:90-100 | The scan by positions: the last entry for exactly the tenant and gateway, else the last entry for the tenant as a whole, else the default |
| `AlertConfigCache.FaithfulExactlyWhenInjective` | internal/adapter/driven/alert_config_cache.go:136-148 | For any set of ids: every list over them is answered as by a scan if and only if the concatenated keys of the ids are distinct |
| `AlertConfigCache.SlashFreeIdsAreInjective` | internal/adapter/driven/alert_config_cache.go:142-147 | Keys are distinct if no tenant id, or no gateway id, contains a slash |
| `AlertConfigCache.SlashesCollide` | internal/adapter/driven/alert_config_cache.go:142-147 | Two different pairs of ids with the same key |
| `AlertConfigCache.CollidingKeysMislead` | internal/adapter/driven/alert_config_cache.go:93-95 | Of two pairs with the same key, one is answered with the other's timeout |
| `AlertConfigCache.AlertConfigCache.TimeoutFor` | internal/adapter/driven/alert_config_cache.go:90-100 | The answer is the lookup in the index of the visible response |
| `AlertConfigCache.AlertConfigCache.TimeoutForAmidRefreshes` | internal/adapter/driven/alert_config_cache.go:90-100 | With any number of refreshes before the load of the snapshot and after each step of the lookup, the answer is that of the one response visible at the load |
| `AlertConfigCache.TwoLoadsMixResponses` | internal/adapter/driven/alert_config_cache.go:91 | Why the snapshot is loaded once: a lookup that loaded it for each index could give an answer of neither response |
| `AlertConfigCache.AlertConfigCache.Refresh` | internal/adapter/driven/alert_config_cache.go:130-153 | A success makes the index of its response visible, a failure changes nothing |
| `AlertConfigCache.AlertConfigCache.RefreshOnTicks` | internal/adapter/driven/alert_config_cache.go:113-126 | After any sequence of periodic refreshes the cache shows the latest success, and the error counter counts the failures |
| `AlertConfigCache.VisibleIsLatestSuccess` | internal/adapter/driven/alert_config_cache.go:130-153 | The visible snapshot is the index of the most recent successful response, whatever failed since |
| `AlertConfigCache.VisibleIsEmptyWithoutSuccess` | internal/adapter/driven/alert_config_cache.go:80-85 | Without any success the snapshot is the empty one |
| `AlertConfigCache.AnswersAsScan` | internal/adapter/driven/alert_config_cache.go:88-100 | After any history with a success, and without a colliding key, answers are those of a scan of the latest successful response |
| `AlertConfigCache.AlertConfigCache.FetchWithBackoff` | internal/adapter/driven/alert_config_cache.go:163-193 | How the initial fetch ends, that a wait follows every failure including the last, that wait k is the k-th of the sequence in exact 64-bit arithmetic, the error counter, at most max(maxRetries, 0) * (rrRetries + 1) requests, and at most initial + (maxRetries - 1) * max + maxRetries * (schedule total) of waiting between and inside the fetches |
| `AlertConfigCache.ClosedForm` | internal/adapter/driven/alert_config_cache.go:186-189 | For durations whose doubles fit 64 bits, wait k is the initial one for k = 0 and min(initial * 2^k, max) after that |
| `AlertConfigCache.ClosedFormExactlyWhenSafe` | internal/adapter/driven/alert_config_cache.go:186-189 | For non-negative durations: the waits follow the closed form if and only if the initial wait is zero or the doubles of initial and maximal wait fit 64 bits |
| `AlertConfigCache.TotalDelayDoubling` | internal/adapter/driven/alert_config_cache.go:182-189 | n waits add up to at most initial * (2^n - 1) |
| `AlertConfigCache.TotalDelayCapped` | internal/adapter/driven/alert_config_cache.go:182-189 | n waits add up to at most initial + (n - 1) * max, for all durations |
| `AlertConfigCache.TotalWaiting` | internal/adapter/driven/alert_config_cache.go:163-193 | For non-negative durations, the waits between the fetches and those inside them together stay within the closed-form bound |
| `AlertConfigCache.FetchAlertConfigs` | internal/adapter/driven/nats_rr_client.go:65-77 | A fetch yields a list if and only if the reply seen decodes to it; its requests and waits are bounded by the retry policy |
| `AlertConfigCache.ProductionBound` | internal/adapter/driven/nats_rr_client.go:48-49 | The production policy: at most four requests and seven seconds of waiting per fetch |
| `SpecTree.CollectRefs` | scripts/filter-asyncapi.mjs:46-57 | Exactly the references of the tree are added to the accumulated set |
| `SpecTree.RefsAreFoundByPaths` | scripts/filter-asyncapi.mjs:46-57 | A string is a reference of a tree if and only if some path of property names into it ends in $ref with this string as the value |
| `SpecTree.ResolveRefs` | scripts/filter-asyncapi.mjs:72-73 | Resolving a path never finds references the tree does not have |
| `SpecTree.NumberedItems` | scripts/filter-asyncapi.mjs:51 | The entries of an array, or of a string, are its items under their decimal indexes, which are distinct |
| `SpecTree.TargetsOfPointer` | scripts/filter-asyncapi.mjs:70-76 | A local pointer leads exactly to the references found along paths from what its pieces resolve to; any other reference leads nowhere |
| `Common.SplitJoins` | scripts/filter-asyncapi.mjs:72 | The pieces of a split are free of separators and join to the whole |
| `Common.JoinSplits` | scripts/filter-asyncapi.mjs:72 | Splitting undoes joining, for pieces free of separators |
| `SpecClosure.FollowRef` | scripts/filter-asyncapi.mjs:70-76 | A reference leads to the references of the subtree it resolves to; to nothing if it is no local pointer or does not resolve |
| `SpecClosure.PushNew` | scripts/filter-asyncapi.mjs:76-81 | Exactly the unknown references are added and queued |
| `SpecClosure.CollectRefsTransitive` | scripts/filter-asyncapi.mjs:64-85 | The worklist terminates and computes the closure, whatever the order of the queue |
| `SpecClosure.ClosureIsLeast` | scripts/filter-asyncapi.mjs:59-63 | The closure contains the start, is closed under following references, and is contained in every such set |
| `SpecClosure.ClosureIsReachability` | scripts/filter-asyncapi.mjs:64-85 | A reference is in the closure if and only if a chain of references leads to it |
| `SpecPrune.PruneComponents` | scripts/filter-asyncapi.mjs:91-103 | For components of any shape: every section stays, with exactly the entries whose canonical reference is kept; a null section is an error, falsy components stay as they are |
| `SpecPrune.CanonicalResolves` | scripts/filter-asyncapi.mjs:72-73 | A canonical reference resolves to its component, for names without a slash |
| `SpecPrune.OccurringIsKept` | scripts/filter-asyncapi.mjs:64-103 | Every reference that occurs in a kept channel, operation or component was followed |
| `SpecPrune.OutputIsClosed` | scripts/filter-asyncapi.mjs:91-103 | A canonical reference that occurs in the filtered parts and resolved in the input resolves in the output to the same value |
| `SpecPrune.OutputIsMinimal` | scripts/filter-asyncapi.mjs:91-103 | Every component of the output is at the end of a chain of references from a kept channel or operation |
| `SpecPrune.ComponentsExactly` | scripts/filter-asyncapi.mjs:91-103 | The output has a component, unchanged, if and only if the input has it and a chain of references from a kept channel or operation leads to #/components/section/name |
| `SpecPrune.PruneIsIdentity` | scripts/filter-asyncapi.mjs:91-103 | Pruning changes nothing if and only if the components are an object of objects, absent or falsy, and every component's canonical reference is kept |
| `SpecPrune.FixedPoint` | scripts/filter-asyncapi.mjs:108-150 | A document is its own filtered form if and only if its channels and operations are already reduced, its components an object of objects, absent or falsy, and all of them reached |
| `SpecFilter.KeepChannelsV2` | scripts/filter-asyncapi.mjs:138-144 | Kept are exactly the channels of whose own tags array, or that of whose subscribe or publish operation, an item is the tag or has it as name; a null channel is an error |
| `SpecFilter.FilterV2` | scripts/filter-asyncapi.mjs:137-150 | For every document: fails exactly on a null channel or section; else the output has exactly the channels that an item of their own tags, or of the tags of their subscribe or publish operation, selects, unchanged, and differs otherwise in the components only |
| `SpecFilter.KeepOperations` | scripts/filter-asyncapi.mjs:109-121 | Kept are exactly the operations that an item of their own tags selects, or of the tags of the channel entry their $ref names with or without #/channels/; the names are those of the channels they refer to; a null operation or a reference that is no string is an error |
| `SpecFilter.KeepUsedChannels` | scripts/filter-asyncapi.mjs:123-126 | Kept are exactly the existing channels with a collected name |
| `SpecFilter.FilterV3` | scripts/filter-asyncapi.mjs:108-132 | For every document: fails exactly on a malformed operation or a null section; else the output has exactly the operations selected by their own or their channel's tags, and exactly the non-falsy channels these refer to, unchanged, and differs otherwise in the components only |
| `SpecFilter.RelevantIsSelectedV3` | scripts/filter-asyncapi.mjs:113-117 | The test for an operation is the reading of tags, channel reference and channel entry by raw fields |
| `SpecAgain.ClosedAndMinimalV2` | scripts/filter-asyncapi.mjs:137-150 | The v2 output is closed for canonical references and minimal |
| `SpecAgain.ClosedAndMinimalV3` | scripts/filter-asyncapi.mjs:108-132 | The v3 output is closed for canonical references and minimal |
| `SpecAgain.WhollyClosedV2` | scripts/filter-asyncapi.mjs:137-150 | Every canonical reference anywhere in the v2 output that resolved in the input still resolves to the same component, if and only if those in the parts that are not filtered, and in string components named $ref, resolve to components that are kept |
| `SpecAgain.WhollyClosedV3` | scripts/filter-asyncapi.mjs:108-132 | The same for the v3 output |
| `SpecAgain.ServerReferenceDangles` | scripts/filter-asyncapi.mjs:137-150 | A document whose server refers to a component that the v2 filter drops |
| `SpecAgain.TargetsAfter` | scripts/filter-asyncapi.mjs:64-103 | Where a reference leads in the filtered document, read off the input |
| `SpecAgain.KeptAgainV3` | scripts/filter-asyncapi.mjs:108-126 | Filtering the v3 output keeps all its operations and channels: a channel whose tag decided was kept with its operation |
| `SpecAgain.TwiceV2` | scripts/filter-asyncapi.mjs:137-150 | v2 is idempotent on an input if and only if every component it keeps is reached by a chain whose links survive the filter |
| `SpecAgain.TwiceV3` | scripts/filter-asyncapi.mjs:108-132 | v3 is idempotent on an input if and only if every component it keeps is reached by a chain whose links survive the filter |
| `SpecAgain.IdempotentV2` | scripts/filter-asyncapi.mjs:137-150 | v2 is idempotent if every followed reference leads nowhere, outside the filtered parts, into a kept channel, or into a kept component |
| `SpecAgain.IdempotentV3` | scripts/filter-asyncapi.mjs:108-132 | v3 is idempotent if every followed reference leads nowhere, outside the filtered parts, into a kept channel or operation, or into a kept component |
| `SpecAgain.DeepReferenceIsNotStable` | scripts/filter-asyncapi.mjs:91-150 | A document with a reference deeper than section and name that a second filtering changes again |
| `TelemetryDelivery.OncePerMessage` | internal/adapter/driving/nats_telemetry_consumer.go:99-219 | In every interleaving, each received message is disposed of once or waits in one place of the line buffer, channel, callback; no other is ever disposed of |
| `TelemetryDelivery.NoSecondDisposal` | internal/adapter/driving/nats_telemetry_consumer.go:131-219 | No message gets two dispositions, and none that is still in the channel has one |
| `TelemetryDelivery.MessagesConserved` | internal/adapter/driving/nats_telemetry_consumer.go:105-219 | The counters for written messages, write errors and parse errors count the acknowledged, asked-for-again and terminated disposals of flushes, and received = parse errors + written + write errors + refused by the callback + still in line |
| `TelemetryDelivery.StoppedLeavesChannel` | internal/adapter/driving/nats_telemetry_consumer.go:169-171 | After the loop has returned nothing is buffered, nothing leaves the channel and nothing is written |
| `TelemetryDelivery.AckedWasWritten` | internal/adapter/driving/nats_telemetry_consumer.go:180-218 | For an acknowledged message, a row with exactly its fields, column by column, and the third token of its subject as tenant was in a write that succeeded |
| `TelemetryDelivery.RowsAreTheGoodOnes` | internal/adapter/driving/nats_telemetry_consumer.go:181-186 | The rows of a batch are those of its valid messages, each once, in order, none left out |
| `TelemetryDelivery.DisposedExactly` | internal/adapter/driving/nats_telemetry_consumer.go:204-218 | In every reachable state: a flush acknowledged a message if and only if the write of its batch succeeded, its subject has three separators, its body decodes and the handler took it; asked for it again if and only if only the write failed; and terminated it otherwise; the callback terminated it if and only if subject or body is malformed |
| `TelemetryDelivery.WrittenInChannelOrder` | internal/adapter/driving/nats_telemetry_consumer.go:148-219 | With a succeeding writer, the rows written followed by those waiting are the valid rows in channel order, for every schedule |
| `TelemetryDelivery.ScheduleDoesNotMatter` | internal/adapter/driving/nats_telemetry_consumer.go:148-219 | Two consumers with any batch sizes and schedules that have finished the same channel contents wrote the same rows |
| `TelemetryDelivery.FlushesDisposeInOrder` | internal/adapter/driving/nats_telemetry_consumer.go:154-219 | Between flushes, the flushes so far disposed of their messages in channel order; each flush holds between 1 and max(1, batchSize) messages |
| `TelemetryDelivery.TerminatedExactlyWhenMalformed` | internal/adapter/driving/nats_telemetry_consumer.go:131-145 | With a handler that never fails, as the tracker's, a message is terminated if and only if its subject has not three separators or its body does not decode, on both paths |
| `TelemetryDelivery.FailingHandlerSplitsPaths` | internal/adapter/driving/nats_telemetry_consumer.go:204-209 | For every message a failing handler rejects: a run that terminates it and a run that asks for it again |
| `TelemetryDelivery.PathsAgreeExactly` | internal/adapter/driving/nats_telemetry_consumer.go:131-145 | Flush and cancelled callback agree in all runs on whether to terminate a message if and only if it is malformed or the handler takes it |
| `TelemetryDelivery.RowIsVerbatim` | internal/adapter/driving/nats_telemetry_consumer.go:253-265 | Each column holds its own field of the message, so tenant and envelope can be read back from the row |
| `TelemetryDelivery.TenantIsThirdToken` | internal/adapter/driving/nats_telemetry_consumer.go:244-250 | The tenant of a row is the third token of a four-token subject |
| `Telemetry.ProcessMeans` | internal/adapter/driving/nats_telemetry_consumer.go:223-250 | A message is valid if and only if its subject has three separators, its body decodes and the handler takes it; its row then holds its fields column by column; it fails permanently if and only if subject or body is malformed |
| `Common.SplitCounts` | internal/adapter/driving/nats_telemetry_consumer.go:245-246 | A subject has one token more than it has separators |
| `TelemetryDelivery.InvHolds` | internal/adapter/driving/nats_telemetry_consumer.go:99-219 | The invariant behind the delivery theorems holds after every run |
| `TelemetryConsumer.Consumer.OnMessage` | internal/adapter/driving/nats_telemetry_consumer.go:105-109 | The callback counts the message; what it holds is valid, with every column of the row as the message has it, if and only if the subject has three separators, the body decodes and the handler takes it; and permanently bad if and only if subject or body is malformed |
| `TelemetryConsumer.Consumer.EnqueuePending` | internal/adapter/driving/nats_telemetry_consumer.go:131-145 | The message joins the channel, or goes to a loop waiting at the empty channel, or, once the context is cancelled, is refused; it blocks exactly when none of this is possible, and then nothing changes |
| `TelemetryConsumer.Consumer.RefusePending` | internal/adapter/driving/nats_telemetry_consumer.go:135-143 | A refused message is disposed of once: terminated if and only if permanently bad, else asked for again |
| `TelemetryConsumer.Consumer.CopyRows` | internal/adapter/driving/nats_telemetry_consumer.go:181-186 | The rows are those of the valid messages, in order, copied out of the reused storage |
| `TelemetryConsumer.Consumer.WriteBatch` | internal/adapter/driving/nats_telemetry_consumer.go:180-219 | One disposition a message, in order: a valid one is acknowledged if the write succeeds and asked for again if not, the others are terminated; without rows nothing can fail |
| `TelemetryConsumer.Consumer.Flush` | internal/adapter/driving/nats_telemetry_consumer.go:154-160 | A flush disposes of exactly the buffered messages and leaves the buffer empty |
| `TelemetryConsumer.Consumer.TakeMessage` | internal/adapter/driving/nats_telemetry_consumer.go:164-168 | One message moves from channel to buffer; the buffer is flushed exactly when it then holds at least batchSize messages |
| `TelemetryConsumer.Consumer.FlushLoop` | internal/adapter/driving/nats_telemetry_consumer.go:148-176 | For every schedule of select outcomes and of the cancellation of the context: buffer, channel, dispositions and end of the loop are those of the turn-by-turn description, and the messages taken are disposed of or buffered in channel order |
| `TelemetryConsumer.StoppedStays` | internal/adapter/driving/nats_telemetry_consumer.go:169-171 | Once the loop has seen the cancellation it has ended: later outcomes of the schedule change nothing |
| `Composition.AlertCandidate` | internal/service/heartbeat_tracker.go:205-231 | An expired Online entry is alerted if and only if the publish succeeds and no attempt within the limit, all before it failed and waited out, brought a reply that decodes, has a non-empty gateway id matching the one asked for, and has the state text paused; every failure of the query lets the alert through |
| `Composition.DecommissionMeetsTelemetry` | internal/adapter/driving/nats_decommission_consumer.go:88-94 | A decommission removes the entry that telemetry on the gateway's own subject feeds if and only if the envelope names the subject's gateway |

## Left out

- HeartbeatExternal.ExternalAgreesWithMap: holds under hypotheses on delivery (last update queued and accepted) because drops and refusals are never repaired; it is not an if-and-only-if.
- HeartbeatTracker.Tracker.Tick: during an uninterleaved Tick the worker takes nothing from the buffer; which Ticks find it waiting is up to the scheduler. The answers are a function of the key, which covers all answers, as a Tick asks about each key once.
- HeartbeatTracker.Tracker.HandleTelemetry: the object runs each call as a whole; overlapping calls and Ticks interleaved with them are covered by the state machine, which works on values.
- SpecAgain.IdempotentV2: a sufficient condition on each reference alone; the exact one is that of SpecAgain.TwiceV2.
- SpecAgain.IdempotentV3: a sufficient condition on each reference alone; the exact one is that of SpecAgain.TwiceV3.
- SpecPrune.OutputIsClosed: speaks of references of the form section and name in the filtered parts; deeper ones are outside the promise because pruning compares the whole reference string, and SpecAgain.WhollyClosedV2 and SpecAgain.WhollyClosedV3 say when the rest of the document is closed, too.
- The two clock readings of a Tick (grace check and `now`) are one step of the state machine; with a monotone clock the later reading passes whatever check the earlier one does. The object's `Tick` has both.
- Liveness and real time: nothing says that a Tick, a flush or a delivery eventually happens.
- An unbuffered status channel (capacity 0) is a hand-over to an idle worker, an unbuffered telemetry channel (batchSize 0) one to a waiting loop. In the state machines a hand-over through a buffered channel is a send that the receiver takes at once.
- The growth of the telemetry buffer beyond its initial capacity happens only for batchSize 0; its storage has size max(1, batchSize) from the start.
- TelemetryConsumer.Consumer.EnqueuePending: a call that blocks returns and is made again; waiting itself has no form of its own.
- TelemetryConsumer.Consumer.FlushLoop: messages that arrive while the loop runs are covered by the state machine; the object's loop works on the channel it finds.
- NATS, JetStream, PostgreSQL, TLS and JSON decoding: parameters that answer with success, failure or a value. What a failed write leaves in the database is not part of this model; neither is what context cancellation does inside a call.
- Inherited properties and the `length` of arrays and strings in property reads (prototype lookups), NaN, and the order of properties.
- Unescaping of `~0` and `~1` in references: the script does none.
- YAML reading and writing, command-line arguments and the generator shell script.
- Start-up wiring, health check, signal handling, configuration loading, migrations, logging, and metrics other than the counters that occur in the balances.
- The alert publisher, status updater, lifecycle provider, clock and row writer adapters: they pass calls through.
- `UpdateGatewayStatus` of the request-reply client: its outcome is the answer of the Management API to a delivery.
