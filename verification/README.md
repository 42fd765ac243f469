# hmauto: a verified model of its rate limiter, its state service and its device

hmauto keeps the on/off state of switches in Redis, announces changes through
RabbitMQ, and drives relays on an ESP8266 device that listens to those
announcements and fetches snapshots. This project models three parts of it in
Dafny and proves what they do over whole runs.

* **Rate limiter** (`TokenBucket.dfy`, `RateLimiter.dfy`, `LimiterRuns.dfy`,
  `LimiterTheorems.dfy`). A map of token buckets updated in place, with
  truncating refills and a cleanup. The truncating bucket is compared with the
  ideal fractional one, its admissions in any window are bounded, its service
  rate and its answers to any calls at one moment are exact, and the condition
  under which cleanup cannot be observed is given in both directions.
* **State service** (`States.dfy`, `StateStore.dfy`, `ServiceSpec.dfy`,
  `StateService.dfy`, `ServiceRuns.dfy`, `ServiceLaws.dfy`, `Interleaving.dfy`,
  `Reduction.dfy`, `InterleavedRuns.dfy`, `IsolatedCalls.dfy`). Create, Set and Patch first as
  methods that run alone, proved against one function, then as many calls in
  flight whose reads, writes, counts and publishes interleave and fail
  independently. The two are related by a reduction theorem for whole runs and
  an isolation theorem for single calls.
* **Device and replication** (`DeviceSpec.dfy`, `DeviceText.dfy`, `Device.dfy`,
  `DeviceLaws.dfy`, `Replication.dfy`, `Convergence.dfy`, `Recovery.dfy`, `DeviceRuns.dfy`,
  `LoopRecovery.dfy`, `Scenarios.dfy`). The device program with its globals,
  backoff and wrapping timer, then the whole system: calls in flight, a queue of
  pushes, a snapshot on its way, and the device. The device, brought up to date
  by what is on its way to it, is the store; the turns of the device program are
  runs of that system; and a lost publish is made good by the next clean sync,
  five minutes after the last one at the latest.

Times in the limiter are integer nanoseconds and a refill is the exact quotient
truncated toward zero; the source computes it in float64
(internal/middleware/ratelimit.go:66). The mutex makes each limiter method one
step, and the clock is read under it, so run theorems take times in order. The
limiter's theorems ask for a rate and a burst of at least one; its methods and
their contracts take any. The interval is positive, since the source divides by it.

The broker and the external bridge to MQTT are one FIFO queue that turns dotted
routing keys into slashed topics. It keeps order (section 4.6 of MQTT 3.1.1) and
is emptied when the connection drops (Clean Session, section 3.1.2.4). A
subscription takes effect at the broker before the snapshot that follows it is
taken: the source does not wait for the acknowledgement and then asks another
host (mqttelectric.ino:186-187, 244-245), so this is assumed of the environment.
A char stands for one byte in topics and payloads. HGETALL is atomic, a failed
HSET leaves the field unchanged, and a log entry records each publish attempt
together with whether the broker accepted it.

## Where the code and its documentation differ

* docs/architecture.md gives the Redis key as `hmstt:{type}`; the code puts the
  configured prefix in front (app/hmstt/store.go:44-46). The model follows the code.
* The comments on `SetState` promise an event only on change and a preserved
  description (app/hmstt/service.go:132-134). A failed read looks like an absent
  entry, and then both promises can fail, and so does Create's refusal of an existing
  key. `PromisesOnPresentKeys` states exactly when each of the three holds for a
  call that runs alone, and `IsolatedPromises` that the same conditions hold for
  a call among others in flight as long as none of them is on its key. The
  service takes no lock, and calls that overlap on one key break the promises
  with every read succeeding: `OverlapLosesDescription`, `OverlapCreatesTwice`.
* A device keeps its switches up by push, each set by its own key's events and by
  no others, exactly when no key contains `.` or `/` and every full topic, in
  bytes, fits the device's 128-byte buffer (`ReplicableExactly`).
* The source evicts buckets last seen strictly before the cutoff
  (internal/middleware/ratelimit.go:85), so the exact condition for invisible
  cleanup is on the refill of ten minutes plus one nanosecond (`CleanupUnobservable`).
* `setup` takes its snapshot before it subscribes (mqttelectric.ino:236-237); the
  reconnecting loop uses the other order (mqttelectric.ino:244-245). `setup`
  leaves a stored switch right exactly when its sync succeeds and the stored
  value is the same at the snapshot and at the subscription
  (`SetupFromPowerOn`); `SetupOrderMisses` is a run in which it is not.
* `STATE_SWITCHES` starts all true while `setup` drives every pin to off;
  `PinAgreement` states exactly when the two agree.

## Model

| member | source | states |
|---|---|---|
| RateLimiter.RateLimiter.Allow | internal/middleware/ratelimit.go:49-76 | the answer and the whole new map of buckets are those of the single-bucket rule applied to the caller's bucket; no other bucket changes |
| RateLimiter.RateLimiter.Cleanup | internal/middleware/ratelimit.go:79-89 | in whatever order the map is ranged over, exactly the buckets last seen more than ten minutes ago are gone and the others are untouched |
| TokenBucket.RefillSuperadditive | internal/middleware/ratelimit.go:65-68 | dropping the fraction at two calls never earns more than dropping it once |
| TokenBucket.Truncates | internal/middleware/ratelimit.go:66-66 | the refill drops less than one token, toward zero for either sign |
| TokenBucket.SweptExactly | internal/middleware/ratelimit.go:83-88 | a bucket outlives a cleanup, unchanged, exactly when it was last seen at most 600 seconds before |
| TokenBucket.RunKeepsRange | internal/middleware/ratelimit.go:64-75 | in every time-ordered run each bucket stays between empty and full |
| LimiterRuns.NonInterference | internal/middleware/ratelimit.go:49-89 | the answers to one identifier and its bucket, over any run, are those of a limiter with that one bucket seeing only its calls and the cleanups |
| LimiterRuns.LastSeenIsLastCall | internal/middleware/ratelimit.go:57-68 | a live bucket's lastSeen is the time of its last call, admitted or denied |
| LimiterRuns.AdmittedWithinBudget | internal/middleware/ratelimit.go:57-88 | calls admitted from any bucket state on are paid for by its tokens and by what time and evictions add |
| LimiterRuns.WindowBound | internal/middleware/ratelimit.go:57-88 | from a call at s until t at most a burst, a burst per ten minutes, and the refill of t - s are admitted; without the burst per ten minutes when buckets refill before eviction |
| LimiterRuns.ExactBurst | internal/middleware/ratelimit.go:57-75 | n calls of one identifier at one moment, after any run: exactly the first min(n, min(t + (now - s) rate / interval, maxBurst)) are admitted, t and s being its tokens and last call, or the first min(n, maxBurst) without a bucket; the rest stays in the bucket |
| LimiterRuns.ServiceRate | internal/middleware/ratelimit.go:65-75 | calls a whole token apart are never denied from any reachable state; calls closer than that are always denied once the bucket is empty |
| LimiterTheorems.Dominance | internal/middleware/ratelimit.go:64-75 | on the same calls and cleanups the truncating bucket never holds more than the ideal fractional bucket, and admits only what the ideal one admits |
| LimiterTheorems.LimiterDominated | internal/middleware/ratelimit.go:49-89 | the same for any identifier of a shared limiter from the start |
| LimiterTheorems.ProbeSeesCleanup | internal/middleware/ratelimit.go:83-88 | when a bucket cannot refill before eviction, two bursts around a cleanup get different answers with and without it |
| LimiterTheorems.CleanupUnobservable | internal/middleware/ratelimit.go:79-89 | cleanup changes no decision of any time-ordered run if and only if an empty bucket refills to a full burst in ten minutes and a nanosecond |
| LimiterTheorems.DefaultLimits | main.go:81-81 | with the default 60 per minute and burst 10 cleanup is invisible and a minute's window admits at most 70 calls |
| StateStore.TrimInvertsRedisKey | app/hmstt/store.go:44-54 | trimming inverts the Redis key and rebuilding inverts trimming on keys with the prefix |
| StateStore.HSetRefinesUpdate | app/hmstt/store.go:56-73 | writing one field of one hash is updating one entry of the flat map from (type, key), and no other |
| StateStore.HmsttStore.SetState | app/hmstt/store.go:56-73 | the flat contents change at exactly one entry, or not at all when the write fails |
| StateStore.HmsttStore.GetState | app/hmstt/store.go:75-88 | the entry of the flat map, or failure when it is absent or the read fails |
| StateStore.HmsttStore.GetAllByType | app/hmstt/store.go:90-107 | every entry of the type exactly once, in whatever order the fields come |
| StateStore.HmsttStore.GetAll | app/hmstt/store.go:109-127 | while others write, every entry exactly once as its hash was when it was read, in whatever order keys and fields come; it fails exactly when the key scan or some hash it found cannot be read |
| StateStore.ScanListsWhatStays | app/hmstt/store.go:109-127 | whatever such a scan lists was stored at some moment of it, and whatever was there at the start and stayed as it was is listed |
| StateStore.QuietScan | app/hmstt/store.go:109-127 | when nothing is written meanwhile the scan lists the store |
| States.RoutingInjective | app/hmstt/event.go:29-29 | different switch keys have different routing keys |
| StateService.HmsttEvent.StateChange | app/hmstt/event.go:23-48 | one more attempt in the log under the prefixed routing key, marked with the broker's answer |
| StateService.HmsttService.GetState | app/hmstt/service.go:36-51 | rejects empty type or key, otherwise the stored entry or an error |
| StateService.HmsttService.GetStatesByKeys | app/hmstt/service.go:69-100 | as many entries as requested positions are stored, and the entry of a stored position, all its fields, stands after those of the stored positions before it, for any listing order; each error case |
| StateService.HmsttService.IndexByKey | app/hmstt/service.go:84-87 | the index holds exactly the stored entries of the type under their keys |
| StateService.HmsttService.Collect | app/hmstt/service.go:89-99 | collecting through the index gives one entry for each stored position, in request order |
| StateService.HmsttService.CreateState | app/hmstt/service.go:102-130 | store, log, counter and answer after every combination of faults |
| StateService.HmsttService.SetState | app/hmstt/service.go:135-172 | the same for Set, a failed read counting as an absent entry |
| StateService.HmsttService.PatchState | app/hmstt/service.go:177-233 | the same for Patch, which validates only a value it is given |
| ServiceLaws.ValidityExactly | app/hmstt/util.go:3-13 | exactly on and off are accepted, for the type switch and a nonempty key |
| ServiceLaws.RoutingKeyIs | app/hmstt/event.go:23-48 | the literal routing key of a switch |
| ServiceLaws.CreateOutcome | app/hmstt/service.go:102-130 | which answer Create gives when; on success the given value, description and time are stored, one event and one count follow, and otherwise nothing changes |
| ServiceLaws.SetOutcome | app/hmstt/service.go:135-172 | the same for Set: the given description, or the kept one if the entry could be read, or none; announced exactly when the value read differs or nothing was read |
| ServiceLaws.PatchOutcome | app/hmstt/service.go:177-233 | the same for Patch: what is not given is kept; announced exactly when a given value differs |
| ServiceLaws.EntryIsLatest | app/hmstt/service.go:102-233 | after any run an entry whose calls could read it is there exactly if one succeeded, and holds value and description of the latest successful call that gave one and the time of the latest successful call |
| ServiceRuns.Replay | app/hmstt/service.go:102-233 | under any faults, folding all publish attempts of a run from an empty store gives the stored values, and the accepted ones give them on every key whose latest attempt arrived; the store stays valid |
| ServiceRuns.ChangeOnly | app/hmstt/service.go:148-169 | if the calls on a key read it successfully, its attempts are the values written to it without adjacent repetitions, whatever fails elsewhere |
| ServiceRuns.CompressHasNoRepeats | app/hmstt/service.go:163-169 | that compression has no two equal neighbours and does not start with the value before it |
| ServiceRuns.CallIsSetOrNothing | app/hmstt/service.go:102-233 | on a valid store every call, whatever fails in it, is a specific SetState or changes nothing and does not succeed |
| ServiceRuns.RunIsSets | app/hmstt/service.go:102-233 | every run, whatever fails in it, ends like a run of SetStates alone |
| ServiceRuns.PromisesOnPresentKeys | app/hmstt/service.go:114-169 | for a call that runs alone: exactly when Create refuses a present key, Set keeps its description, and Set announces |
| Interleaving.NextSafe | app/hmstt/service.go:102-233 | one step of any call keeps the safety invariant below |
| Interleaving.AlwaysSafe | app/hmstt/service.go:102-233 | under every interleaving, overlapping calls included: stored entries are valid switches, every publish follows a write of the same value by the same call, the log is what the calls attempted, and the counter is attempts plus calls between count and publish |
| Reduction.Reduce | app/hmstt/service.go:102-233 | if calls on one entry do not overlap, the completed calls run one after another in completion order give the same store, answers, per-key messages and counters, each call made occurring once |
| Reduction.AdvanceSimulates | app/hmstt/service.go:102-233 | each step of a call in flight leaves the sequential run where it is, or appends the call when it completes, and keeps the relation between the two |
| InterleavedRuns.InterleavedReplay | app/hmstt/service.go:102-233 | both halves of replay hold at every moment of an interleaved run without overlap on a key, for every key no call has written and not yet published |
| InterleavedRuns.InterleavedChangeOnly | app/hmstt/service.go:148-169 | for such a key whose completed calls read it successfully, the attempts so far are the values those calls wrote, without adjacent repetitions |
| InterleavedRuns.InterleavedEntry | app/hmstt/service.go:102-233 | such an entry holds what the latest of its completed calls gave, field by field |
| InterleavedRuns.OverlapBreaksReplay | app/hmstt/service.go:147-169 | two overlapping faultless Sets on any key can end with off stored and on published last |
| IsolatedCalls.IsolatedCall | app/hmstt/service.go:102-233 | a call that overlaps no other on its key answers, stores and publishes there as it would alone in the world in which it was made, however the calls on other keys overlap |
| IsolatedCalls.IsolatedPromises | app/hmstt/service.go:114-169 | for such a call on a present key, exactly when Create refuses it, Set keeps its description, and Set announces |
| IsolatedCalls.OverlapLosesDescription | app/hmstt/service.go:147-156 | a faultless Set without a description, overlapped by a Patch of the description, undoes it, and both succeed |
| IsolatedCalls.OverlapCreatesTwice | app/hmstt/service.go:114-123 | two faultless overlapping Creates of one key both succeed |
| Device.Device.SetStateData | mqttelectric.ino:131-165 | the first switch whose name or full topic matches gets the trimmed, lower-cased state and its pin level; nothing else changes |
| Device.Device.SyncPersistentData | mqttelectric.ino:73-125 | requests the switches' keys in order; panel and timer state after a success, a parse error, an HTTP error or a transport failure |
| Device.Device.ConnectToMQTTBroker | mqttelectric.ino:181-197 | ends connected and tells whether it had to connect |
| Device.Device.MqttCallback | mqttelectric.ino:199-213 | a push sets the switch of its topic to the payload read as a C string |
| Device.Device.Setup | mqttelectric.ino:215-240 | pins off, then one sync, then connected, then the enabling pin high; without a snapshot active-low pins end HIGH and active-high pins LOW |
| Device.Device.Loop | mqttelectric.ino:242-256 | one turn's effect on panel and timer: sync on reconnecting, push, periodic sync when due in 32-bit arithmetic |
| DeviceSpec.KeyOfSwitchPath | mqttelectric.ino:65-71 | the key name of `switch/key` is `key` |
| DeviceSpec.SnapshotNameMatches | mqttelectric.ino:106-107 | a snapshot's name selects the one switch with that key |
| DeviceSpec.SetSwitchAt | mqttelectric.ino:141-159 | the selected switch is believed as told, and its pin is LOW exactly when on if active-low, HIGH exactly when on if active-high; other switches and pins stay |
| DeviceSpec.PinsOffAt | mqttelectric.ino:224-234 | before the first sync active-low pins are HIGH and active-high pins LOW |
| DeviceText.IsOnExactly | mqttelectric.ino:134-144 | a state means on exactly when it is on in any case with blanks around it; everything else means off |
| DeviceText.CStringIs | mqttelectric.ino:203-207 | a payload counts up to its first NUL |
| DeviceText.FullTopicIs | mqttelectric.ino:132-142 | the full topic is cut to 127 bytes |
| DeviceText.ExtractKeyNameIs | mqttelectric.ino:65-71 | the key is what follows the first slash, and the whole name when nothing does |
| DeviceSpec.ApplyItemsAt | mqttelectric.ino:99-108 | applying a snapshot leaves each switch and pin at the last usable value it carries, or untouched, and no other pin changes |
| DeviceLaws.EndToEndSync | mqttelectric.ino:79-108 | a successful sync puts every stored switch at the stored value, its pin LOW or HIGH by its wiring, and leaves the others alone |
| DeviceLaws.SnapshotValue | app/hmstt/service.go:79-99 | the batch answer carries exactly the stored values of the requested keys |
| DeviceLaws.PinAgreement | mqttelectric.ino:49-56 | from power-on, belief and pin of a switch agree exactly when something has set that switch |
| DeviceLaws.Backoff | mqttelectric.ino:110-122 | the interval takes four values, n transport failures after a success make it min(5000 n, 15000), other errors leave it |
| DeviceLaws.FailingFrom | mqttelectric.ino:110-122 | from any state after a failed sync with interval v, n transport failures make it min(v + 5000 n, 15000), and parse and HTTP errors among them change nothing |
| DeviceLaws.BackoffEverywhere | mqttelectric.ino:73-125 | the interval after any history of replies: with no success yet 300000 or, after a transport failure, 15000; since the latest success 300000, min(5000 n, 15000), or 15000 when another error came first |
| DeviceLaws.TurnsBackOff | mqttelectric.ino:242-256 | over any turns of the loop the backoff is that of all replies met, those on reconnecting included |
| DeviceLaws.FailedSyncKeepsPanel | mqttelectric.ino:87-97 | a reply without code 200 or without a snapshot leaves switches and pins alone |
| DeviceLaws.TimerExact | mqttelectric.ino:250-255 | over any number of rollovers the periodic sync fires exactly when the true time since it last fired reaches the interval |
| DeviceLaws.TimerGapIsTight | mqttelectric.ino:250-255 | a gap one millisecond longer can make a due sync be missed |
| DeviceLaws.TimerExactly | mqttelectric.ino:250-255 | every run of turns with gaps up to g is on time if and only if g is at most 2^32 - 300000 ms |
| Replication.ReplicableExactly | mqttelectric.ino:142-145 | for distinct named switches, each is selected by its own key's bridged events and no others exactly when every key has no dot and no slash and every full topic fits the buffer |
| Replication.BoardReplicable | mqttelectric.ino:36-56 | the configured board meets the hypotheses of the convergence theorems |
| Convergence.StepInv | app/hmstt/service.go:102-233 | every step of service, broker, link and device keeps the replication invariant |
| Convergence.Converges | mqttelectric.ino:181-256 | in every run, from a snapshot taken under the present subscription on, device overlaid with snapshot, queue and pending publishes equals the store on every stored switch without a lost publish; Recovery.ConvergesByLog says it of the log |
| Convergence.DrainedDeviceShowsStore | mqttelectric.ino:199-213 | a synced device with a drained queue shows the store on every such switch no call is working on |
| Convergence.DrainConverges | mqttelectric.ino:248-248 | delivering the queue of a quiescent synced system makes every such switch show the store |
| Recovery.SyncRecovers | mqttelectric.ino:254-254 | after a sync begun with no push of a key queued, with the service working all through it, the key may be trusted exactly when its latest publish attempt since the snapshot arrived, whatever was lost before |
| Recovery.ReconnectRecovers | mqttelectric.ino:242-247 | after a reconnection, with the service working at every point of it, exactly when the latest attempt arrived, counted from the snapshot or, with a push of the key queued then, from the subscription |
| Recovery.ConvergesByLog | mqttelectric.ino:181-256 | counting from any moment without a subscription, once a snapshot has been taken under the present one, the overlaid device is the store on every stored switch whose latest attempt in the log arrived |
| Recovery.ConvergesByEvents | mqttelectric.ino:242-247 | the same from the events alone: subscribed, a snapshot taken and applied, the connection standing since |
| DeviceRuns.RoundIsTurn | mqttelectric.ino:242-256 | a loop turn does to the panel what its events do in the system, with service steps and disconnections at any point of it, also while a snapshot is in flight; it leaves a device that is still connected synced exactly when it was, or a sync of the turn succeeded |
| DeviceRuns.LoopConverges | mqttelectric.ino:242-256 | after any number of such turns the panel the program computed, overlaid with queue and pending publishes, is the store on every trusted switch, and shows it where nothing is on its way; which switches those are is for the LoopRecovery rows |
| DeviceRuns.LoopDrains | mqttelectric.ino:248-248 | with the service idle and the device synced, as many turns as pushes are queued make the computed panel show the store |
| LoopRecovery.RoundRecovers | mqttelectric.ino:250-255 | a turn whose periodic sync succeeds with no push of a key queued makes the key trusted exactly when its latest attempt since that snapshot arrived |
| LoopRecovery.LostPublishIsSeen | mqttelectric.ino:242-256 | five minutes after the last periodic sync, over rollovers and dropped connections, if syncs succeed and find no push of the key queued, the computed panel is up to what is on its way the store, whatever was lost before |
| LoopRecovery.LoopConvergesByLog | mqttelectric.ino:242-256 | convergence of the computed panel for every stored switch whose latest attempt arrived, wherever the program ends synced |
| LoopRecovery.ReconnectedLoopConverges | mqttelectric.ino:242-247 | the same after a turn that reconnects and syncs, the connection standing since, without reference to what the system records |
| Scenarios.SetupShows | mqttelectric.ino:236-237 | whatever the service does before the subscription stands, setup leaves a stored switch right exactly when its sync carried the value stored by then, or carried none and the switch showed it already |
| Scenarios.SetupFromPowerOn | mqttelectric.ino:223-237 | from power-on that is exactly when the sync succeeds and the value at the snapshot is the value at the subscription |
| Scenarios.SetupOrderMisses | mqttelectric.ino:236-237 | a change between setup's snapshot and its subscription leaves a drained, faultless system showing off what is stored on |
| Scenarios.OverlapBreaksConvergence | app/hmstt/service.go:147-169 | a synced device, two overlapping faultless Sets and every push delivered: it shows on what is stored off, with nothing on its way |

## Left out

- Float64 rounding in the refill expression and 64-bit overflow of token counts.
- HTTP and MCP handlers, request decoding, response envelopes and Swagger: thin wrappers over the service.
- Authentication, security headers, request size, metrics and tracing middleware, and how the limiter's identifier is taken from headers.
- JSON encoding of entries: a stored field is its entry, and a field that cannot be decoded counts as a failed read.
- StateStore.HmsttStore.GetAll: Redis's glob matching is taken as prefix matching, which is right for a prefix without glob characters.
- Device.Device.ConnectToMQTTBroker: the number of refused attempts is a parameter, so a broker that never accepts is not modelled; a refused SUBSCRIBE is not either.
- Device.Device.SyncPersistentData: the request's URL is its list of keys, without URL encoding, and a full JSON buffer is a parse error.
- Convergence.Converges: for calls that overlap on one key it is false, as OverlapBreaksConvergence shows, and it does not trust what setup showed before the first sync under a subscription; SetupFromPowerOn says exactly when that is right.
- Redis, AMQP, MQTT and Wi-Fi clients beyond maps, logs and a queue with failures; pushes larger than the MQTT client's buffer.
- Health checks, configuration defaults other than the rate limits, logging, startup and shutdown.
