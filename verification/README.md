# CogniThorn: verified model of the request path, the worker registry and the certificate lifecycle

CogniThorn is a web application firewall made of small state machines that share Redis and interleave at `await` points.
This project models them in Dafny 4.11 and proves what every interleaving keeps. `dafny verify dfyconfig.toml` checks all of it.

| file | content |
|---|---|
| `CircuitBreaker.dfy` | the per-worker breaker as a class, and its reference semantics over recorded histories |
| `CacheKey.dfy`, `Analyst.dfy`, `Guard.dfy` | key text, verdict documents and error classification, threshold comparison and live configuration |
| `Counters.dfy` | traffic counters and incident rows under non-transactional pipelines |
| `Pipeline.dfy`, `PipelineProofs.dfy`, `PipelineTheorems.dfy` | the request path of all workers, with one breaker each and one cache, as a state machine, its invariant, and the results about runs |
| `Worker.dfy` | `dispatch` and `analyze` as code: every `await` lets all other tasks move, and the run is a run of the state machine |
| `WorkerHash.dfy`, `DeadWorker.dfy`, `WorkerHashTheorems.dfy`, `HealthChecker.dfy` | the worker hash with split HGET/HSET writes and the health checker's counts as one state machine; what becomes of dead workers, of registrations, requests and draining workers, and of the counts |
| `WorkerTasks.dfy`, `WorkerChecks.dfy`, `WorkerRouter.dfy` | the code that moves that machine: markings, registration, shutdown, health checks, failover loop |
| `Registry.dfy`, `RegistryRows.dfy`, `RoundRobin.dfy` | registry operations and the rows that mirror the hash, one at a time and interleaved; fairness of the shared counter |
| `SniRouter.dfy`, `Renewal.dfy` | TLS context cache against a two-file write, domain rows and renewal rounds |
| `HealingLease.dfy` | the never-released leader key |
| `Calibration.dfy`, `Benchmark.dfy` | confusion counts, metrics, threshold sweep |

How to read the state machines: a state is a value, an action is one atomic stretch of code (or one Redis command, one
file operation, the passing of time), and `Exec` applies any sequence of actions, skipping those that are not enabled. A
statement about `Exec(start, acts)` for all `acts` is therefore a statement about every schedule. Replies, errors and the
clock are part of the action. In `Worker.dfy`, `WorkerTasks.dfy`, `WorkerChecks.dfy` and `WorkerRouter.dfy` the coroutines are methods of a class that holds the
shared state; what the other tasks do at each `await` is a parameter, and `Valid()` says that the object's state is
`Exec` of everything that has happened so far, so every result about runs applies to it.

Inputs from outside: the score of the ONNX model, Gemini's replies, HTTP answers, issued certificates, the clock, and the
success of each Redis, database, disk or issuance step. Single Redis commands are atomic and the clock does not go back.

## Where the code differs from what its comments, tests or documentation say

The model follows the code; each difference is a result of its own.

- The half-open phase admits every request, not one trial, and a failure in it does not re-open the breaker
  (`HalfOpenAdmitsEveryRequest`; comment at `data_plane/detection/analyst.py:38`).
- A cached document that itself has a `from_cache` key is never served, because the keyword is passed twice
  (`HitServedIffUnmarked`, `MarkedNeverServed`; `MarkedHitIsAskedAgain` is a run in which it happens;
  `tests/test_analyst.py:55-74` expects a hit).
- The key text is ambiguous exactly when path, query or body head contains a colon (`AmbiguousIffColon`).
- The settings API publishes strings, a score cannot be compared with a string, and the guard then lets everything
  through (`PublishedThresholdNeverStops`, `StringThresholdBlocksNothing`).
- Nothing sets a worker back to healthy except a registration (`NoResurrection`; `tests/test_worker_router.py:368-370`), and
  a registration can be undone by a write that began before it (`RegistrationSurvivesIffUndisturbed` says exactly when, `RegistrationCanBeLost` is a run).
- Deregistration at shutdown is best-effort: a worker that cannot reach the control plane leaves its entry behind, as
  `draining` (`WorkerTasks.Fleet.ShutDown`).
- A dead worker reappears at most once per gateway or shutdown task that held it only if nobody deletes its entry between
  the HGET and the HSET of its removal, which then writes it back (`ReturnsBounded` counts exactly those deletions,
  `OncePerHolder` is the case without any, `ReturnsWithoutHolder` a run in which it happens).
- While the row update of its removals raises, the health checker never gets a dead worker out of the hash
  (`NeverRemovedWithoutRow`).
- Marking a worker that is not registered leaves a row without an entry (`RowsMirrorIff`, `RegistryRows.RowMirrorsIff`), and so
  can a registration and a deregistration of one worker that overlap (`RegistryRows.OverlapLeavesRow`).
- A lookup that reads the old certificate while both files are replaced can pair it with the new key. With a new key for each
  certificate, as `ssl_gateway/acme_client.py:90` draws them, this never does harm (`FreshKeysNeverMix`); in general it is
  harmless exactly under the condition in `NeverMixedIffHarmless`, which a reused key can violate (`ReusedKeyIsHarmful`).
- A first issuance that raises after its status write strands the domain in `issuing` (`StrandedForever`, `NeverDueIff`).
- A freshly issued pair that does not match leaves the domain without any context, although the old one was good
  (`IssuanceServedIffMatching`).
- The start-up restore never restores anything, because the listing blanks the keys (`RenewalTask.StartUp`).
- The leader key keeps healings apart only while none lasts a minute (`ExclusiveIffShort`).
- Precision is not monotone in the threshold (`PrecisionImprovesIff`, `PrecisionCanFall`;
  `scripts/calibrate_threshold.py:18-22`), and the swept optimum need not be the optimum over all thresholds
  (`SweepOptimalIffAtScores`, `SweepCanMiss`).

## Model

| member | source | states |
|---|---|---|
| CircuitBreaker.CircuitBreaker.RecordSuccess | data_plane/detection/analyst.py:59-63 | the new state is the success step of the specification that the histories replay |
| CircuitBreaker.CircuitBreaker.RecordFailure | data_plane/detection/analyst.py:65-74 | the new state is the failure step of that specification |
| CircuitBreaker.CircuitBreaker.AllowRequest | data_plane/detection/analyst.py:76-88 | the answer is the admission predicate of the old state and the new state is the specification's ask step |
| CircuitBreaker.RefinesHistory | data_plane/detection/analyst.py:51-74 | after any history `failures` is the number of failures since the last success, the breaker is closed iff that is below the threshold, and `opened_at` is the time of the threshold-th of them |
| CircuitBreaker.AdmissionRefinesHistory | data_plane/detection/analyst.py:76-88 | on a monotone clock a request is refused iff the history has a trip since the last success that is no older than the timeout |
| CircuitBreaker.HalfOpenAdmitsEveryRequest | data_plane/detection/analyst.py:65-88 | once the timeout has passed every request is admitted until the next success, whatever fails in between, and `opened_at` stays |
| CircuitBreaker.OpeningsBounded | data_plane/detection/analyst.py:65-74 | openings are at most successes + 1, and openings times the trip count are at most the failures |
| CircuitBreaker.ThirdStrike | data_plane/detection/analyst.py:51-88 | with the settings in use: fewer than three failures since the last success never refuse, from the third on exactly the 60 seconds after that third failure do |
| CacheKey.ColonFreeHeadDetermines | data_plane/detection/analyst.py:96-99 | without a colon in method, path or query the key text determines all four fields |
| CacheKey.SameTextIff | data_plane/detection/analyst.py:96-99 | two requests without colons in method, path or query have the same key text iff method, path, query and the first 512 body characters are the same |
| CacheKey.AmbiguousIffColon | data_plane/detection/analyst.py:96-99 | other key fields with the same method and a rooted path have the same key text iff path, query or body head contains a colon |
| Guard.Score | data_plane/detection/guard.py:63-81 | the guard stops a request iff the model answered, the threshold is a number or null, and the score is not below it |
| Guard.ConfigSubscriber.Listen | data_plane/worker/config_subscriber.py:19-41 | every key, and with it the threshold that the request path reads, has the value of the last usable message that mentions it; the others keep theirs |
| Guard.PublishedThresholdNeverStops | control_plane/api/settings_api.py:14-29 | after a threshold update through the settings API, and any further updates, the guard passes every request |
| Counters.StatsStore.SendPipeline | data_plane/proxy/middleware.py:66-88 | the total and the counter of the outcome grow by one exactly for the commands the server applied, and `execute()` returns iff both were and the answers arrived; the run is one of the state machine |
| Counters.StatsStore.LogBlocked | data_plane/proxy/middleware.py:91-124 | the incident is inserted iff both commands were applied, their answers arrived and the database accepts the row |
| Counters.Conservation | data_plane/proxy/middleware.py:66-124 | for every interleaving, failure and early stop: total + jobs with only the second increment = clean + false positives + blocked + jobs with only the first |
| Counters.IncidentsWithinBlocked | data_plane/proxy/middleware.py:91-124 | incident rows never outnumber the blocked counter and belong to blocked requests |
| Counters.IncidentsAreInserts | data_plane/proxy/middleware.py:98-122 | in every run the incidents are exactly the blocked requests, with both commands applied, whose row write was accepted |
| PipelineProofs.NextKeepsInv | data_plane/detection/analyst.py:121-213 | every transition of the request path keeps the invariant over breaker, cache, tasks and counters |
| PipelineProofs.Reachable | data_plane/detection/analyst.py:121-213 | the invariant holds after every schedule |
| PipelineTheorems.TaskDiscipline | data_plane/detection/analyst.py:121-213 | a task asks at most once, records at most once and only if admitted, calls Gemini at most three times and only if admitted, does neither on a clean pass or cache hit, and counts a fail-open iff it ends in one |
| PipelineTheorems.HistoryIsExchanges | data_plane/detection/analyst.py:185-211 | in every run the history of a worker's breaker is exactly how its exchanges ended: a failure at its time for each timeout and each error mentioning 500, 502, 503 or 504 that is not retried, a success for each parsed reply, nothing else |
| PipelineTheorems.ThreeFaultsRefuse | data_plane/detection/analyst.py:140-146 | after three such faults since the last success, whatever happens in between, a request that misses the cache is refused for 60 seconds from the third, and admitted before and after |
| PipelineTheorems.AdmissionFollowsHistory | data_plane/detection/analyst.py:140-146 | in every reachable state a task that missed the cache is admitted iff the recorded history of its own worker has no recent trip |
| PipelineTheorems.OpeningsCostTasks | data_plane/detection/analyst.py:185-213 | over a run, each opening of a worker's breaker costs a full trip count of its tasks that recorded a failure, and openings are at most its tasks that recorded a success, plus one |
| PipelineTheorems.OpenBreakerOnlyDrains | data_plane/detection/analyst.py:140-183 | while a worker records no success and the timeout has not passed, the set of its tasks in the Gemini exchange only shrinks, whatever other workers do |
| PipelineTheorems.CacheCoherence | data_plane/detection/analyst.py:130-196 | every verdict served from the cache has the fields of the document that a task of any worker with the same key got from Gemini and returned, with `from_cache` set, stored within its time to live |
| PipelineTheorems.ServedToSameRequest | data_plane/detection/analyst.py:96-138 | that task's request had the same method, path, query and first 512 body characters, if those seen have no colon and the digest does not collide on the texts seen |
| PipelineTheorems.SameRequestSameKey | data_plane/detection/analyst.py:96-99 | requests that agree in those parts share their key, whatever else differs |
| PipelineTheorems.HitServedIffUnmarked | data_plane/detection/analyst.py:131-146 | however a run goes on that has reached a live hit: the settled task was served the entry iff the document has no `from_cache` key, and otherwise has asked the breaker |
| PipelineTheorems.MarkedNeverServed | data_plane/detection/analyst.py:131-138 | in no run is a request served from a document that carries the key |
| PipelineTheorems.MarkedHitIsAskedAgain | data_plane/detection/analyst.py:131-198 | a run from the start in which one worker caches such a document, a task of a second worker fetches it live, and that task goes to the breaker and is admitted |
| PipelineTheorems.EndToEndRefinement | data_plane/proxy/middleware.py:22-56 | with deterministic models and a key that decides the analysis on the requests seen, a request is blocked iff the cache-free, failure-free pipeline blocks it and neither stage failed open; an analyst fail-open is counted exactly once |
| PipelineTheorems.KeyDecidesWithoutColons | data_plane/detection/analyst.py:96-99 | the key decides the analysis when the analysis looks only at method, path, query and the first 512 body characters, no method, path or query seen has a colon, and the digest does not collide on the texts seen |
| PipelineTheorems.StringThresholdBlocksNothing | data_plane/detection/guard.py:70-81 | while only string thresholds are in force in a worker every request of it that reads one is let through |
| PipelineTheorems.CountersAccountForRequests | data_plane/proxy/middleware.py:33-47 | in every reachable state each counter is the number of settled requests with that outcome whose command took effect, the totals balance, and incident rows are counted blocked requests |
| Worker.WafWorker.Dispatch | data_plane/proxy/middleware.py:22-56 | under any behaviour of the other tasks and workers the coroutine's run is a run of the state machine; it passes iff the score is below the threshold in force on arrival or the guard failed open, a deep-path outcome comes from the cache, the breaker or the reply that ended the loop, and the client gets a 403 with type and explanation iff the verdict is an attack |
| Worker.WafWorker.Screen | data_plane/proxy/middleware.py:30-36 | the fast path against the threshold in force before the inference: stopped iff the model scored, the threshold is a number or null, and the score is not below it |
| Worker.WafWorker.Analyze | data_plane/detection/analyst.py:121-213 | served from the cache iff it had a live, unmarked entry for the key when it was read, and then that one; otherwise the outcome of the breaker or the exchange; a run of the state machine |
| Worker.WafWorker.Lookup | data_plane/detection/analyst.py:130-138 | what the cache held for the request's key at the moment of the GET, if it was alive and the GET succeeded |
| Worker.WafWorker.Ask | data_plane/detection/analyst.py:140-146 | refused iff the breaker object is open and was opened no longer than the timeout ago |
| Worker.WafWorker.CallModel | data_plane/detection/analyst.py:166-183 | the loop ends with the first reply that is no 429 error, or the third, and the outcome is the one for that reply: the document's fields, the time-out verdict or the error verdict |
| Worker.WafWorker.Keep | data_plane/detection/analyst.py:185-198 | the document's verdict is returned; unless a command fails the document is cached under the request's key for the configured time, 86400 seconds if none is |
| Worker.WafWorker.Fault | data_plane/detection/analyst.py:200-213 | the breaker's failures and history grow by one, now, iff the exchange timed out or the message has 500, 502, 503 or 504 in it; the verdict's text says which |
| Worker.WafWorker.OpenUp | data_plane/detection/analyst.py:102-116 | the fail-open count is sent once and a verdict without attack, confidence or remedy is returned, with the reason |
| WorkerHash.IdsMatchKeys | control_plane/registry/registry.py:14-24 | in every reachable state each entry's id is its hash key |
| WorkerHash.NoResurrection | ssl_gateway/worker_router.py:87-97 | in every interleaving of split writes, deletions and shutdowns a non-routable worker stays so until a healthy registration |
| WorkerHash.RoutableSetShrinks | ssl_gateway/worker_router.py:15-27 | without registrations the routable set only shrinks |
| DeadWorker.GoneForGoodIffUnheld | control_plane/registry/registry.py:27-31 | an absent worker stays absent in every run without its registration iff no task holds a copy of its entry |
| DeadWorker.ReturnsBounded | ssl_gateway/worker_router.py:87-97 | a dead worker reappears at most once per gateway or shutdown task that finishes its business with it, and once per deletion that falls between HGET and HSET of its removal; unfinished tasks still count |
| DeadWorker.OncePerHolder | ssl_gateway/worker_router.py:87-97 | once removed, it reappears at most once per task that still held it, if no deletion falls between HGET and HSET of a later removal |
| DeadWorker.ReturnsWithoutHolder | control_plane/registry/registry.py:27-54 | a run in which such a deletion makes a dead worker reappear although no gateway or shutdown task has any business with it |
| DeadWorker.RemovalsBounded | control_plane/registry/health_checker.py:37-45 | every removal of a dead worker that begins is paid for by its one listing, a gateway or shutdown task that finished with it, or a removal that an error ended, whatever happens between listing and removal |
| DeadWorker.FailedChecksBounded | control_plane/registry/health_checker.py:13-45 | a dead worker fails three checks for its listing and three for each task that may bring it back, plus one for each removal that an error ends |
| DeadWorker.DeadWorkerConverges | control_plane/registry/health_checker.py:37-45 | a dead worker is never routable, its reappearances and failed checks are bounded as above, and when the last task that may write its entry is done an absent entry is gone for good |
| DeadWorker.NeverRemovedWithoutRow | control_plane/registry/registry.py:46-54 | while the row update of every removal raises and nobody else deletes the entry, no number of checks removes it |
| WorkerHashTheorems.RegistrationSurvivesIffUndisturbed | control_plane/registry/registry.py:14-24 | a healthy registration survives every continuation in which nothing new happens to this worker, whatever happens to others, iff no marking, shutdown or removal of it was under way |
| WorkerHashTheorems.RegistrationCanBeLost | control_plane/registry/registry.py:14-24 | a run in which a worker registers again while a marking is under way and ends up unroutable, although nothing new happens to it |
| WorkerHashTheorems.MarksAreTheFailed | ssl_gateway/worker_router.py:52-84 | in every run until a worker answers, whatever commands fail, a mark has been attempted on exactly the candidates that failed the request, in order, and on none still to come |
| WorkerHashTheorems.FailedWorkersUnroutable | ssl_gateway/worker_router.py:52-84 | under any interleaving, when a request has run out of candidates no worker it was ahead of is routable, unless registered again |
| WorkerHashTheorems.DrainSafety | data_plane/main.py:74-96 | after a successful drain write every request still involving the worker has an older snapshot, and prompt requests have left it when the window ends |
| WorkerTasks.Fleet.Relabel | control_plane/registry/registry.py:46-52 | HGET, relabel, HSET with arbitrary actions in between: what is written is the entry as it was at the HGET, with the new status; afterwards the worker is not routable unless a command failed |
| WorkerTasks.Fleet.MarkWorkerFailed | ssl_gateway/worker_router.py:87-97 | one mark is attempted; once written the status is `unhealthy`, after one whose commands succeeded the worker is not routable, and the request goes on with its remaining candidates either way |
| WorkerTasks.Fleet.RegisterWorker | control_plane/registry/registry.py:14-24 | the worker is routable at once, and stays so in every quiet continuation iff no task was writing or deleting its entry |
| WorkerTasks.Fleet.ShutDown | data_plane/main.py:51-97 | the entry is marked `draining`, and gone at the end if the deregistration gets through; either way, if the marking commands succeeded and nobody registers the worker, it is not routable, and if requests are prompt none is at it after the 8 seconds |
| WorkerChecks.Checker.Remove | control_plane/registry/registry.py:27-54 | marking, row update, deletion and row deletion with arbitrary actions in between: which failures prevent the deletion, a moment at which the entry is out, and what happens to the count |
| WorkerChecks.Checker.CheckWorker | control_plane/registry/health_checker.py:25-45 | with other tasks acting at every await: count and removal after one check, whatever command fails |
| WorkerChecks.Checker.CheckUntilGone | control_plane/registry/health_checker.py:13-45 | with any errors and interleaving: a dead worker is out of the hash by the first check, from the third failure on, whose commands all succeed, and then for good iff no task holds a copy; otherwise every removal that was due met an error |
| WorkerRouter.HealthyExactly | ssl_gateway/worker_router.py:19-27 | the worker list holds exactly the parsable entries whose status is `healthy` |
| WorkerRouter.HealthyInOrder | ssl_gateway/worker_router.py:15-27 | ... in the order in which the server lists the keys |
| WorkerRouter.GetWorkers | ssl_gateway/worker_router.py:15-27 | the loop builds the healthy entries in server order |
| WorkerRouter.LoadBalancer.SelectWorker | ssl_gateway/worker_router.py:30-36 | the index is the incremented counter modulo the number of workers, unless the increment raises |
| WorkerRouter.Gateway.Attempt | ssl_gateway/worker_router.py:52-82 | one candidate: it fails iff the answer is 502, 503, 504 or an error; then it is marked and the request keeps the rest of its candidates |
| WorkerRouter.Gateway.TryInTurn | ssl_gateway/worker_router.py:52-84 | while all other tasks act: the answer is the first that is not 502, 503, 504 or an error, a mark is attempted on exactly the candidates before it, those marked stay unroutable unless registered, and `All WAF workers unavailable` is returned iff all failed |
| WorkerRouter.Gateway.Forward | ssl_gateway/worker_router.py:30-84 | an empty list gives `No WAF workers available`, an exception of the snapshot or the counter ends the request; otherwise one increment, and the request is sent first to the worker at the incremented counter and then to the others in snapshot order, as long as those before failed, with marks on exactly those; if all fail and all marks succeed, no worker of the snapshot is routable unless registered meanwhile |
| WorkerRouter.CandidatesPermuteSnapshot | ssl_gateway/worker_router.py:49-52 | the candidates are a permutation of the healthy snapshot |
| WorkerRouter.OthersInOrder | ssl_gateway/worker_router.py:49-52 | the candidates behind the selected worker are all the others, in the order of the snapshot |
| WorkerRouter.Gateway.ServeFairly | ssl_gateway/worker_router.py:30-52 | over n requests while the list of k workers stays the same, whatever fails, each worker is the first choice of floor(n/k) or ceil(n/k) of them |
| RoundRobin.Fair | ssl_gateway/worker_router.py:30-36 | over k consecutive counter values each of n workers is chosen floor(k/n) or ceil(k/n) times |
| RoundRobin.FairAcrossEpochs | ssl_gateway/worker_router.py:30-36 | over m membership epochs two workers present throughout differ by at most m |
| Registry.Registry.Deregister | control_plane/registry/registry.py:27-31 | the deletion step of the run specification; the entry is gone even when the database write raises |
| Registry.Registry.MarkUnhealthy | control_plane/registry/registry.py:46-54 | the marking step of the run specification; the mirrored row has neither host nor port |
| Registry.RowIsLastWrite | control_plane/registry/registry.py:14-54 | a row is what the last operation about the worker with a successful database write made of it: the registered worker, or an unhealthy one without host and port |
| Registry.EntryIsLastRegistration | control_plane/registry/registry.py:14-54 | an entry is that of the last registration, undone by no deregistration, and unhealthy iff the worker was marked since |
| Registry.HashRefines | control_plane/registry/registry.py:14-54 | the hash half of each operation is what its Redis commands do in the state machine when nothing interleaves |
| Registry.RowsMirrorIff | control_plane/registry/registry.py:14-54 | throughout a run of operations one at a time, rows and hash name the same workers iff no registration or deletion that changed the hash lost its database write and no absent worker was marked |
| RegistryRows.RowMirrorsIff | control_plane/registry/registry.py:14-54 | with all commands interleaved: if the operations about one worker do not overlap, its row and its entry are there together, whenever none is under way, iff each of them was harmless in that sense |
| RegistryRows.OverlapLeavesRow | control_plane/registry/registry.py:14-31 | a registration and a deregistration that overlap leave a row without an entry, without any error |
| HealthChecker.RefinesHistory | control_plane/registry/health_checker.py:25-45 | in every run of the shared hash in which the checker's own calls about a worker succeed: it has as many removals as third failures in a row, and unless one is under way its count is the run of failures modulo three |
| HealthChecker.OneInThreeSuffices | control_plane/registry/health_checker.py:37-45 | a worker that passes one of any three consecutive checks is never removed, in any run and with any errors |
| HealthChecker.ThreeFailuresRemove | control_plane/registry/health_checker.py:37-45 | after any run, with any errors and interleaving: of the checks that a worker fails without passing one, at least every third begins a removal of it |
| SniRouter.CachedPairsWereOnDisk | ssl_gateway/sni_router.py:14-24 | however lookups interleave with the writing thread, if every write is harmless then every cached context is a matching pair that was on disk as a whole |
| SniRouter.FreshKeysNeverMix | ssl_gateway/renewal_task.py:48-55 | the same, if no key that is written fits an earlier, different certificate of its domain: a condition on the writes alone |
| SniRouter.ReusedKeyIsHarmful | ssl_gateway/cert_store.py:42-54 | a run after which reusing a key is not harmless and can lead to a context that was never on disk |
| SniRouter.NeverMixedIffHarmless | ssl_gateway/cert_store.py:42-54 | after harmless writes, a further write can never lead to a context that mixes two issuances iff it is harmless: a condition on contexts and files before it |
| SniRouter.CachedPairsMatch | ssl_gateway/sni_router.py:14-24 | whatever is written, every cached context matches |
| SniRouter.IssuanceServedIffMatching | ssl_gateway/renewal_task.py:51-55 | after a completed issuance and until the next write for the domain, the new pair is served if it matches and nothing is served if it does not |
| SniRouter.CertDirectory.WriteCertSync | ssl_gateway/cert_store.py:50-54 | directory, certificate, key, mode: what each failing step leaves on disk, as the thread's actions of the state machine leave it |
| SniRouter.Router.GetContext | ssl_gateway/sni_router.py:14-24 | the lookup is the two loop steps of the state machine with nothing in between |
| SniRouter.Router.ReloadContext | ssl_gateway/sni_router.py:27-31 | afterwards the domain has a context iff the pair on disk loads, and it is that pair |
| Renewal.CertificateIsLastRenewal | shared/db/crud.py:151-218 | after any rounds, failures and upstream changes, certificate, key, issue time and expiry are those of the last due attempt that renewed, or the initial ones |
| Renewal.QuietAfterRenewal | ssl_gateway/renewal_task.py:36-45 | once a renewal has succeeded no round attempts the domain again until one that starts less than 30 days before the new expiry |
| Renewal.LeftIssuingIff | ssl_gateway/renewal_task.py:29-58 | after any number of rounds a domain is in `issuing` iff a step of the last started attempt raised, or it began there and none was started |
| Renewal.NeverDueIff | ssl_gateway/renewal_task.py:36-45 | no round ever takes up a row iff it is neither pending nor failed and has no expiry |
| Renewal.StrandedForever | ssl_gateway/renewal_task.py:48-58 | a first issuance that raises after the status write is never retried, in any number of rounds and whatever upstream the API sets |
| Renewal.RenewalNeverLate | ssl_gateway/renewal_task.py:19-45 | for every n with n gaps within 30 days, some n consecutive rounds attempt a renewal no later than the expiry of an unrenewed certificate |
| Renewal.DailyRenewalNeverLate | ssl_gateway/renewal_task.py:15-45 | daily rounds attempt 30 renewals before the expiry of an unrenewed certificate, and 29 if rounds start up to 24 h 49 min apart |
| Renewal.DomainTable.GetAllDomains | shared/db/crud.py:179-189 | every row is listed with a blank key |
| Renewal.DomainTable.UpsertDomain | shared/db/crud.py:151-161 | a new domain is due at the next round; an existing one is due exactly when it was and keeps its certificate and status |
| Renewal.DomainTable.UpdateStatus | shared/db/crud.py:211-218 | only the status of an existing row changes |
| Renewal.DomainTable.UpdateCert | shared/db/crud.py:192-208 | pair, status, issue time and expiry of an existing row change together |
| Renewal.RenewalTask.IssueForDomain | ssl_gateway/renewal_task.py:48-58 | row, disk and context cache after an issuance that may raise at any step: issued with the new pair, failed, left in `issuing`, or as before; the cached context changes only if none raised |
| Renewal.RenewalTask.CheckAndRenewAll | ssl_gateway/renewal_task.py:29-45 | a round starts an issuance for exactly the visited domains that are pending, failed or expire in less than 30 days, stops at the first that raises, and leaves row, files and context of all others alone |
| Renewal.RenewalTask.RestoreCerts | ssl_gateway/cert_store.py:57-65 | listed pairs missing on disk are written up to the first write that raises; pairs already there are kept |
| Renewal.RenewalTask.StartUp | ssl_gateway/cert_store.py:57-65 | nothing is ever restored from the listing the code uses |
| HealingLease.LeaderKey.Acquire | control_plane/healing/patch_generator.py:25-29 | the key is taken iff it is free or expired, and then for 60 s |
| HealingLease.LeaderKey.Serve | control_plane/healing/patch_generator.py:32-40 | the winners of any sequence of attempts are those of the specification |
| HealingLease.WinsIffFree | control_plane/healing/patch_generator.py:20-29 | an attempt wins iff it is the first or the last winner is at least 60 seconds back |
| HealingLease.AcquisitionsSpaced | control_plane/healing/patch_generator.py:20-29 | acquisitions i and j are at least 60 (j - i) seconds apart |
| HealingLease.WindowBound | control_plane/healing/patch_generator.py:20-29 | the set of acquisitions in a window of length T has at most floor(T/60) + 1 members |
| HealingLease.OverlapBound | control_plane/healing/patch_generator.py:32-40 | the set of healings under way at an instant, of at most D seconds each, has at most floor(D/60) + 1 members |
| HealingLease.ExclusiveIffShort | control_plane/healing/patch_generator.py:20-40 | healings never overlap in any run iff none can last 60 s |
| Calibration.ComputeMetrics | scripts/calibrate_threshold.py:75-101 | the counts are the sizes of the four sets of samples, and precision, recall, F1 and accuracy are those quotients, with 1 for an empty precision |
| Calibration.F1FromCounts | scripts/calibrate_threshold.py:90-92 | the harmonic mean equals 2TP/(2TP+FP+FN), or 0 when TP is 0, for either convention on empty precision |
| Calibration.F1BetweenPrecisionAndRecall | scripts/calibrate_threshold.py:90-92 | F1 lies between precision and recall when TP > 0 |
| Calibration.CountsMonotone | scripts/calibrate_threshold.py:78-88 | raising the threshold never raises TP or FP, never lowers FN or TN, and keeps both class sizes |
| Calibration.RecallAntitone | scripts/calibrate_threshold.py:91 | recall never rises with the threshold |
| Calibration.SameCountsAcrossGap | scripts/calibrate_threshold.py:78-88 | two thresholds with no score in the half-open gap have the same counts |
| Calibration.PrecisionImprovesIff | scripts/calibrate_threshold.py:17-22 | raising the threshold keeps or improves precision iff the samples in the gap are no richer in attacks than the blocked ones, also when nothing is left blocked |
| Calibration.PrecisionCanFall | scripts/calibrate_threshold.py:17-22 | two samples on which a higher threshold has lower precision |
| Calibration.Sweep | scripts/calibrate_threshold.py:134-139 | the metrics at 0.05, 0.10, ..., 0.95, and the first row with the largest F1, which is the best F1 on the grid that the theorems speak of |
| Calibration.BestBeatsNeighbours | scripts/calibrate_threshold.py:134-139 | the best row's F1 is at least that of every threshold separated from some grid point by no score |
| Calibration.SweepOptimalIffAtScores | scripts/calibrate_threshold.py:134-139 | the swept optimum is the optimum over all thresholds iff it beats the thresholds at the scores themselves |
| Calibration.SweepCanMiss | scripts/calibrate_threshold.py:134-139 | two samples for which the sweep's best F1 is below that of the threshold 0.98 |
| Benchmark.Tally | scripts/benchmark_model.py:106-135 | each type's counts are those of its own samples, the types add up to the overall counts, and those are `compute_metrics`'s |
| Benchmark.KindCountsAre | scripts/benchmark_model.py:106-135 | a type's four counts are the sizes of the sets of its samples, attack or not, blocked or not |
| Benchmark.Summarise | scripts/benchmark_model.py:150-155 | same F1 as the calibration script although empty precision is 0 here |
| Benchmark.Run | scripts/benchmark_model.py:106-155 | the whole benchmark, which raises exactly on an empty data set |

## Left out

- ACME messages, key generation, TLS handshakes, Fernet: an issuance is an input that yields a pair with an expiry, or nothing.
- ONNX inference, tokenisation, softmax and model training: the score is an arbitrary real or an exception.
- Gemini prompts, GitHub client, repository scanning and patch text: library calls without state of their own.
- HTTP header copying, redirects, body decoding, API keys, audit log, plain selects, dashboard and deployment: single-branch plumbing.
- Redis Sentinel failover, eviction, lost writes and task cancellation: commands either take effect or raise.
- Pipeline: all clocks are one; a worker that restarts, losing its breaker and its tasks, is not modelled.
- The 5 s Gemini timeout and the 1 s and 2 s back-off waits are not tied to the clock, so runs may be slower or faster than real ones; nor is the 600 s expiry of the fail-open count modelled.
- Worker.WafWorker.Dispatch: what the other tasks do at an `await` is a parameter rather than concurrent code.
- WorkerRouter.Gateway.Forward: other gateways' increments of the counter appear only as its value; what the other tasks do at an `await` is a parameter.
- WorkerHash: hash values are always JSON objects, since every write is one; unparsable values appear only in `WorkerRouter.GetWorkers`.
- Registry: one operation at a time; `RegistryRows` interleaves them, without the health checker's counts. In `WorkerHash` a row update is only a step that may fail.
- SniRouter: loading reads the two files one after the other and nothing else; a file that is open for writing does not load.
- Renewal.RenewalNeverLate: counts rounds that reach the domain; `CheckAndRenewAll` says which domains a raising round skips.
- Renewal.RenewalTask.CheckAndRenewAll: nothing else changes rows, disk or cache while it runs; upstream changes appear between the rounds of the row theorems, where they commute with an issuance (`EditsCommute`).
- HealingLease: the switch that disables healing and the healing work itself.
- Calibration: floating-point rounding of scores, thresholds and metrics. Benchmark: latencies, printed tables and the list of wrong samples.
