# A verified model of the load balancer's core

A Dafny model of the five linked state machines under the load balancer, with machine-checked properties over every input,
every interleaving or every run. `dafny verify dfyconfig.toml` checks the whole project.

| file | models |
|---|---|
| `Fleet.dfy` | shared values: a `Handle` is a pointer to one backend object with its immutable name and URL; sequence filtering; two facts of integer division |
| `Hash.dfy` | FNV-1a-64 and the Murmur3 finalizer on 64-bit words |
| `Ring.dfy` | the consistent-hash ring for any hash function: placement, stable sort, lower-bound search, the wrap-around walk |
| `BoundedLoads.dfy` | one bounded-loads `Select`, and closed-loop runs of it |
| `RingCache.dfy` | the version-keyed ring cache under any interleaving of callers and reloads |
| `Circuit.dfy`, `CircuitRuns.dfy`, `Breaker.dfy` | the lock-free circuit breaker: its retry loops, every interleaving of their steps, and the gauge layer above |
| `CircuitSeries.dfy` | breaker calls on a changing fleet, and the circuit-state series |
| `Config.dfy`, `ExpandEnv.dfy` | validation and defaults, the two reload comparisons, environment references in URLs |
| `Registry.dfy`, `App.dfy` | the registry's `Apply`, one reload, and whole runs of accepted and rejected reloads |
| `Outlier.dfy`, `Checker.dfy`, `HealthRuns.dfy` | the passive failure window, the active probe machine, and runs that mix both with reloads |
| `Accounting.dfy`, `Proxy.dfy`, `Drain.dfy` | slots and the active-requests gauge over every run, one request's ways of ending, one drain goroutine |
| `TrialRace.dfy` | two reachable runs with two trials in flight: a stranger's re-arm, and a stale failure that starts a second episode |
| `Whole.dfy` | the reload, accounting, health and circuit systems in one joint run |

## How to read it

Each area has the same three layers. Methods in the source's own form (loops, classes, retry loops on an atomic pointer)
are proved against pure functions. Systems of those functions are run by arbitrary sequences of choices, one choice for each
atomic action that the source takes. Lemmas then state what holds in every reachable state.

Concurrency appears twice for the breaker and for the ring cache. In the classes `Circuit.Backend` and `RingCache.Selector` one
goroutine runs the real loop while `rivals`, a list of stores that others will win, may land between any two of its steps:
the contracts say that the call is one atomic application of its operation, whatever the rivals do. In `CircuitRuns` and the
step system of `RingCache`, any number of threads interleave single load, clock and compare-and-swap steps. A stored
value always gets a fresh identity, so a compare-and-swap succeeds only against the very value that was loaded.

Main results, by the name of the lemma that states them:

* `Ring.MinimalDisruption`: removing a backend deletes it from every key's walk and changes nothing else, with any hash function.
  `Ring.WalkVisitsEachOnce`, `BoundedLoads.FallbackIsDead`, `BoundedLoads.ClosedLoopBound`, `Hash.OneByteApart`,
  `RingCache.CacheAgreesWithRebuilding`.
* `CircuitRuns.Refinement`: under every interleaving the breaker is a sequential three-state machine, of which
  `ClosedCountsTrailingFailures`, `OpensExactlyAtThreshold`, `OpenOutlastsCooldown`, `TrialConservation`, `NoHalfOpenWedge` and
  `TransitionsAreReportedOnce` say what its runs obey.
* `App.RunOk`, `App.RetiredForGood`, `App.RejectionChangesOnlyTheRecord`, `Registry.ApplySimulates`: what any run of reloads
  leaves. `Whole.JointRunsAgree`: reloads, requests, drains, probes, observations and breaker calls in one run, of which
  `Whole.JointSeriesAgree` and `Whole.JointCircuitsRead` say what every per-backend series reads.
* `App.DocumentOutcome`: for every document and state of a run, the refusal it meets or that it is what is served.
  `Breaker.OpensOnThirdFailure`, `Breaker.PromotesAfterCooldown`, `Ring.EachOwns150`, `BoundedLoads.SelectFromAnyWalk`.
* `HealthRuns.GaugeAgreesInEveryRun`, `Checker.ProbesAloneDecide`, `Outlier.WindowIsLastTen`, `Outlier.EjectionsAreApart`.
* `Accounting.ActiveCountsRequests` and `Accounting.GaugeIsSumExactlyWhenSafe`; `ExpandEnv.ExpandExactly` and
  `ExpandEnv.FailsExactly`.

Claims that a reader might make and that are false of the code, each with its exact condition and a run or pool in which it fails:

* A bounded-loads result is not always selectable, because admission does not look at the circuit. For one key it is exactly when
  every admissible circuit-open candidate is preceded by an admissible one whose circuit is not open
  (`BoundedLoads.CircuitIsNotConsulted`). For every hash and key it is exactly when each healthy circuit-open member is over capacity
  (`SelectableForEveryKey`). `OpenOwnerReturned` builds a failing pool for any fleet, hash and key.
* "At most one outstanding trial" fails when a request that does not hold the trial ends it. However the run goes on, it holds
  throughout exactly when every effective re-arm and outcome found no taker out but its own caller
  (`CircuitRuns.OneTrialExactlyWhenOwnEnds`), which in a run of proxy requests is the trial's holder (`OwnEndIsHolders`).
  `TrialRace.TwoTrialsInFlight` is a run in which a stranger re-arms, and `TrialRace.StaleFailureOverlaps` one in which a
  request admitted while closed fails late, reopens the circuit, and the next episode's trial overlaps the first. Counting only
  the takers of the present half-open episode, the condition is on re-arms alone (`OneTrialExactlyWhenOwnRearms`,
  `OwnRearmIsHolders`). The balance of `TrialConservation` holds in every run.
* Two successful probes do not always pace recovery from a passive ejection. The next probe alone reinstates exactly when the
  prober's success streak is already running (`HealthRuns.NextProbeReinstates`); `EjectedThenOneProbe` is such a run.
* The first-probe-round latch does not always mean that every startup backend was probed. It is set although some was not
  exactly when at least as many later backends were (`HealthRuns.LatchWrongExactly`, with the run `LatchAfterReload`). Nor does
  it always follow from every configured backend having been probed: it is unset then exactly when fewer backends have been
  probed than started (`LatchUnsetExactly`), which needs a startup backend removed unprobed (`LatchUnsetAfterReload`).
* The active-requests gauge does not always equal the sum of its instances' counts. It does in every state of a run exactly when
  every reload and every drain completion in it is safe (`Accounting.GaugeIsSumExactlyWhenSafe`);
  `ReAddedTooSoon` is a run that ends with the gauge at -1 and no request in flight.

The identity key has a precondition that validation establishes: a pair shares its key with another pair exactly when its name or
URL contains a NUL (`Config.IdentityCollides`). Validated names contain none, and among such pairs the key is injective
(`Config.IdentityInjective`).

Where the code and its comments disagree, the model follows the code: the comment at `internal/balancer/ring.go:79-83` allows the
search to return any matching index, but the search used returns the first, and the model is the lower bound.

## Model

| member | source | states |
|---|---|---|
| Hash.Fmix64Bijective | internal/balancer/ring.go:114-121 | the finalizer is a bijection on 64-bit words, with an explicit inverse on both sides |
| Hash.FnvStepBijective | internal/balancer/ring.go:105-109 | for a fixed byte one FNV-1a step is a bijection on 64-bit words, and dividing out the prime leaves the state xored with the byte |
| Hash.FnvStepSeparatesBytes | internal/balancer/ring.go:105-109 | from one state two different bytes lead to different states |
| Hash.OneByteApart | internal/balancer/ring.go:105-121 | two keys of equal length that differ in exactly one byte never share a ring position |
| Hash.CollisionsAreFnvCollisions | internal/balancer/ring.go:105-121 | two keys share a position exactly when their FNV sums agree |
| Hash.FinalizerRecovered | internal/balancer/ring.go:105-121 | a position is a 64-bit word, and undoing the finalizer recovers the FNV-1a sum from the standard offset |
| Hash.XorShiftTwice | internal/balancer/ring.go:115 | the xor-shift is by 33 places and its own inverse on 64-bit words |
| Ring.NewRing | internal/balancer/ring.go:46-62 | the two loops and the sort give the stable sort by position of 150 virtual nodes per backend, in list order: 150 times as many nodes as backends, and those of "0:name" to "149:name" only |
| Ring.ItoaReadsBack | internal/balancer/ring.go:49-55 | a node's index is written in decimal digits without leading zero and reads back as the index |
| Ring.RingNodes | internal/balancer/ring.go:46-62 | the ring's nodes are exactly the 150 of each listed backend |
| Ring.EachOwns150 | internal/balancer/ring.go:46-62 | in a ring over distinct backends each one's nodes are exactly those placed by hashing index, colon and name for the indices 0 to 149, in position order |
| Ring.SortStable | internal/balancer/ring.go:58-60 | insertion sorting equals the stable-sort specification |
| Ring.StableSortSorted | internal/balancer/ring.go:58-60 | the stable sort is sorted and keeps exactly the nodes it was given |
| Ring.StableSortUnique | internal/balancer/ring.go:42-45 | any sorted arrangement that keeps nodes of equal position in their original order is this one |
| Ring.FilterSort | internal/balancer/ring.go:58-60 | deleting nodes before or after the sort gives the same ring |
| Ring.BinarySearch | internal/balancer/ring.go:84-86 | halving finds the lower bound of the key's position |
| Ring.LowerBoundSplits | internal/balancer/ring.go:84-86 | everything before the start is strictly before the key's position, everything from it on is at or after it |
| Ring.Candidates | internal/balancer/ring.go:71-98 | the iterator yields the walk, up to and including the first backend at which the consumer stops |
| Ring.WalkVisitsEachOnce | internal/balancer/ring.go:63-98 | the walk yields every backend of the list exactly once, in order of first occurrence clockwise from the key, wrap-around and empty ring included |
| Ring.MinimalDisruption | internal/balancer/ring.go:46-98 | the walk of the ring built without b is the walk of the full ring with b deleted, for every list, backend, key and hash function |
| Ring.KeyMovesOnlyFromRemoved | internal/balancer/ring.go:46-98 | removing b moves a key exactly when b owned it, and then to the second backend of its walk |
| BoundedLoads.Selectable | internal/backend/registry.go:141-149 | the selectable set is the healthy and not circuit-open members in registry order |
| BoundedLoads.CapacityFor | internal/balancer/consistent_hash.go:156-167 | the loop computes the ceiling of five quarters of the mean load, at least 1 |
| BoundedLoads.CapacityIsLeast | internal/balancer/consistent_hash.go:152-167 | the ceiling is the least positive integer that is at least five quarters of the mean |
| BoundedLoads.Select | internal/balancer/consistent_hash.go:108-138 | the loop returns the first admitted candidate, else the least loaded live one, else an error |
| BoundedLoads.FallbackIsDead | internal/balancer/consistent_hash.go:94-138 | with no reload in progress Select errs exactly when nothing is selectable and otherwise returns the first candidate that is healthy, not removed and within capacity |
| BoundedLoads.FallbackIsLeastLoaded | internal/balancer/consistent_hash.go:121-138 | the fallback is the first least loaded among the healthy and not removed candidates, and is missing exactly when there is none |
| BoundedLoads.SelectFromAnyWalk | internal/balancer/consistent_hash.go:108-150 | from any walk, a stale ring's or one during a reload, Select errs exactly when nothing is selectable or no candidate is live; otherwise it returns the first candidate within five quarters of the mean, or the first least loaded live one when there is none |
| BoundedLoads.NeverReturnsRemoved | internal/balancer/consistent_hash.go:140-150 | whatever ring is held, even a stale one, the result is in it, healthy and not removed |
| BoundedLoads.CircuitIsNotConsulted | internal/balancer/consistent_hash.go:108-150 | for one key the result is selectable exactly when every admissible circuit-open candidate of its walk comes after an admissible one whose circuit is not open |
| BoundedLoads.OverloadedOpenNeverReturned | internal/balancer/consistent_hash.go:108-150 | if every healthy circuit-open member is over capacity, the result is selectable for every hash and key |
| BoundedLoads.OpenWithinCapacityReturned | internal/balancer/consistent_hash.go:148-150 | for any healthy circuit-open member within capacity there are a hash and a key that return it |
| BoundedLoads.SelectableForEveryKey | internal/balancer/consistent_hash.go:108-150 | read off the pool alone: the result is selectable for every hash and key exactly when every healthy circuit-open member is over capacity |
| BoundedLoads.OpenOwnerReturned | internal/balancer/consistent_hash.go:148-150 | for every fleet of two or more, hash and key, a pool whose only open circuit is the owner's returns the owner |
| BoundedLoads.RunInvariant | internal/balancer/consistent_hash.go:108-167 | after every closed-loop run the loads sum to its length, the flags are unchanged, and every load is within the bound |
| BoundedLoads.ClosedLoopBound | internal/balancer/consistent_hash.go:108-167 | from zero load, after T selections over n selectable backends no load exceeds max(1, ceil(5T/4n)) + 1 |
| BoundedLoads.ClosedLoopBoundAttained | internal/balancer/consistent_hash.go:108-167 | the smallest case, open circuits allowed: the same key twice fills its owner to the bound |
| BoundedLoads.ClosedLoopBoundTight | internal/balancer/consistent_hash.go:108-167 | the bound is tight for every T of two or more: over two or more backends, all selectable, one repeated key keeps its owner filled to it |
| RingCache.Selector.constructor | internal/balancer/consistent_hash.go:59-64 | the initial cache is the ring of the registry's first snapshot |
| RingCache.Selector.CurrentRing | internal/balancer/consistent_hash.go:77-92 | whatever rivals do between its steps, the loop ends and returns the ring of one published version at least as new as the registry was at the call; the cache stays faithful and never goes back |
| RingCache.StepKeepsInv | internal/balancer/consistent_hash.go:77-92 | every atomic step of any caller or reload keeps the cache equal to the ring of the snapshot its version names |
| RingCache.CacheAgreesWithRebuilding | internal/balancer/consistent_hash.go:66-92 | under every interleaving the cached ring is the ring of exactly the snapshot its version names, never ahead of the registry, and each call's answer is at least as new as the registry when the call began |
| RingCache.CachedVersionsAdvance | internal/balancer/consistent_hash.go:77-92 | cached versions never go backwards in any run |
| RingCache.LoneCallRefreshes | internal/balancer/consistent_hash.go:77-92 | an undisturbed call returns within five steps with the registry's current version and leaves that version cached |
| Circuit.Backend.Retry | internal/backend/backend.go:273-289 | a load, decide, compare-and-swap loop against rival stores terminates and is one atomic application of its operation |
| Circuit.Backend.CircuitOpen | internal/backend/backend.go:299-302 | one atomic promotion attempt; the result says whether the circuit is open afterwards |
| Circuit.Backend.CircuitAllow | internal/backend/backend.go:318-350 | one atomic promotion attempt, then one atomic admission attempt; reports a promotion it performed itself |
| Circuit.Backend.RearmTrial | internal/backend/backend.go:365-377 | one atomic clearing of a taken trial, or nothing |
| Circuit.Backend.CircuitSuccess | internal/backend/backend.go:393-408 | one atomic success: open ignores it, half-open closes and reports it, closed resets the count |
| Circuit.Backend.CircuitFailure | internal/backend/backend.go:422-452 | one atomic failure: open ignores it, half-open reopens, closed counts and opens at the threshold, stamped with a clock reading taken during the call |
| CircuitRuns.Refinement | internal/backend/backend.go:273-452 | in every interleaving of load, clock and swap steps by any number of threads the history is a run of the sequential three-state machine whose state the pointer holds |
| CircuitRuns.ClosedCountsTrailingFailures | internal/backend/backend.go:410-452 | while closed, the counter is the length of the trailing failure run and below the threshold |
| CircuitRuns.OpensExactlyAtThreshold | internal/backend/backend.go:422-452 | from closed, the failure that makes the trailing run reach the threshold opens, and nothing else does |
| CircuitRuns.OpenAdmitsNothing | internal/backend/backend.go:318-350 | no call is admitted while open, and open is left only by a promotion read at least the cooldown after the opening stamp |
| CircuitRuns.OpenOutlastsCooldown | internal/backend/backend.go:273-289 | any step that changes an open circuit makes it half-open, with at least the cooldown elapsed on the real clock |
| CircuitRuns.ReplayPrefix | internal/backend/backend.go:273-452 | every prefix of a run of the machine is a run |
| CircuitRuns.TrialConservation | internal/backend/backend.go:318-377 | in a half-open episode trial admissions minus effective re-arms is 1 while the trial is taken and 0 otherwise |
| CircuitRuns.ExactlyOneTrial | internal/backend/backend.go:304-350 | without a re-arm exactly one of the callers answered in the episode was admitted |
| CircuitRuns.AnyRearmAdmitsAnotherTrial | internal/backend/backend.go:352-377 | after a re-arm by anyone the next caller is a second trial of the same episode, beside every taker but the giver that was still out |
| CircuitRuns.OneTrialExactlyWhenOwnEnds | internal/backend/backend.go:352-452 | across episodes and whatever undisturbed continuation follows, at most one taker is out throughout a run exactly when no effective re-arm or outcome of the run came while a taker other than its caller was out |
| CircuitRuns.OwnEndIsHolders | internal/proxy/proxy.go:418-446 | in every run of proxy requests over a live backend, the re-arm or outcome that keeps that law while a trial is taken is exactly the trial holder's own |
| CircuitRuns.OneTrialExactlyWhenOwnRearms | internal/backend/backend.go:352-377 | of the takers of one half-open episode at most one is out throughout a run, whoever asks next, exactly when every effective re-arm of the run came from the taker still out |
| CircuitRuns.OwnRearmIsHolders | internal/proxy/proxy.go:432-440 | in every run of proxy requests over a live backend, the re-arm that keeps that law is exactly the trial holder's own |
| TrialRace.TwoTrialsInFlight | internal/backend/backend.go:352-377 | for every cooldown, with the breaker's own threshold, a reachable run of permitted proxy calls has two trials of one half-open episode out and in flight at once |
| TrialRace.StaleFailureOverlaps | internal/backend/backend.go:352-452 | for every cooldown a reachable run of permitted proxy calls without any re-arm has the trials of two half-open episodes in flight at once, after a stale failure resolved the first |
| CircuitRuns.NoHalfOpenWedge | internal/proxy/proxy.go:267-446 | in every run of proxy requests, if a live backend is half-open with its trial taken, the request that took it is in flight and none of its terminal calls has taken effect |
| CircuitRuns.TransitionsAreReportedOnce | internal/backend/backend.go:299-452 | in every interleaving entries into open equal opened plus reopened reports, closes equal closed reports, and promotions equal half-opened reports plus those won by a scan or not returned yet |
| Breaker.GaugeAgrees | internal/circuit/circuit.go:62-131 | in every run of breaker calls the gauge equals the state, except exactly that it reads open in a half-open state won by a scan |
| Breaker.OpensOnThirdFailure | internal/circuit/circuit.go:16 | in every run, from closed an outcome opens the circuit exactly when it is the third failure since the last success, looking through scans and admissions, and nothing else opens it |
| Breaker.PromotesAfterCooldown | internal/circuit/circuit.go:62-88 | in every run, from open a scan or an admission promotes exactly when the cooldown has passed since the call that opened the circuit, and outcomes change nothing |
| Breaker.OneOutcomeDecides | internal/circuit/circuit.go:103-131 | in every run, from half-open a success closes, a failure reopens, and scans and admissions change no state |
| Breaker.Breaker.IsOpen | internal/circuit/circuit.go:62-64 | a scan is one atomic promotion attempt among whatever rivals store, and writes no gauge; alone it is the scan step of the run |
| Breaker.Breaker.Admit | internal/circuit/circuit.go:77-88 | admission is a promotion and an admission attempt, each atomic among rivals; the gauge is written exactly for this call's own promotion; alone it is the allow step of the run |
| Breaker.Breaker.ObserveRoundTrip | internal/circuit/circuit.go:103-131 | an outcome is one atomic success or failure among rivals, and the gauge is written exactly for its own transition; alone it is the outcome step of the run, and opens a closed circuit exactly when it fails after two failures |
| CircuitSeries.SeriesReadInEveryRun | internal/circuit/circuit.go:62-131 | in every run of breaker calls and reloads each live backend's series reads its state, except that it reads open while half-open after a promotion won by a scan, and no other name has a series |
| Config.Validate | internal/config/config.go:412-525 | an accepted document keeps every field it sets and gets for every omitted one the default written out in the contract; it is accepted exactly when the resolved configuration is valid, and the error is a problem it has, with none that is checked earlier |
| Config.FirstProblem | internal/config/config.go:425-525 | the checks find a problem that the document has, and none that is checked earlier |
| Config.ValidateBackends | internal/config/config.go:457-474 | reports the first invalid backend, then a duplicate name, and nothing exactly when all are valid and distinct |
| Config.NothingBrokenIsValid | internal/config/config.go:412-525 | breaking no requirement is exactly resolving to a valid configuration |
| Config.OmittedEqualsExplicit | internal/config/diff.go:60-64 | an omitted field and its explicit default resolve to the same configuration |
| Config.SetFieldsAreKept | internal/config/config.go:500-525 | a document that sets every field resolves to just what it says |
| Config.NonBackendChanges | internal/config/diff.go:65-105 | names the differing sections in the fixed order, and none exactly when everything but backends and algorithm is equal |
| Config.SectionsNamed | internal/config/diff.go:65-105 | each of the ten section names is listed exactly when its own fields differ, and no other name is |
| Config.NoSectionChanged | internal/config/diff.go:65-105 | the ten sections cover every field that a reload may not change |
| Config.IdentityInjective | internal/config/diff.go:118-125 | without a NUL in the name, the identity key determines name and URL |
| Config.IdentityCollides | internal/config/diff.go:118-125 | another pair has the same key exactly when the name or the URL contains a NUL |
| Config.BackendIdentities | internal/config/diff.go:128-134 | the loop collects exactly the identity keys of the list |
| Config.DiffBackends | internal/config/diff.go:26-44 | for any lists the diff by key, added and unchanged in the new order, removed in the old; for names without a NUL, the diff by (name, URL) pair |
| Config.KeysArePairs | internal/config/diff.go:118-134 | for names without a NUL the diff by key is the diff by (name, URL) pair |
| Config.ReorderKeepsAll | internal/config/diff.go:19-44 | a pure reorder diffs to all unchanged |
| ExpandEnv.ExpandEnv | internal/config/config.go:380-410 | the index loop over a builder terminates and equals left-to-right expansion |
| ExpandEnv.NoReference | internal/config/config.go:381-383 | text without a reference is returned unchanged |
| ExpandEnv.ExpandRender | internal/config/config.go:374-410 | expanding a rendered template gives its literals and values concatenated, values taken as they are |
| ExpandEnv.ExpandExactly | internal/config/config.go:374-410 | expansion succeeds exactly on rendered templates whose variables are set and non-empty, and yields their filling |
| ExpandEnv.FailsExactly | internal/config/config.go:380-410 | expansion fails exactly when a front of the text expands by itself and what follows opens a reference that is never closed, is not a variable name, or names an unset or empty variable; the error is that one |
| Registry.Registry.constructor | internal/backend/registry.go:67-79 | startup lists one fresh healthy object per entry, in order, as version 1 |
| Registry.Registry.NameMap | internal/backend/registry.go:196-199 | the name map holds the last backend of each name |
| Registry.Registry.BuildList | internal/backend/registry.go:203-229 | the new list is built aside, failing on the first entry that does not parse, is missing, or is in neither set |
| Registry.Registry.MarkRemoved | internal/backend/registry.go:231-238 | retires exactly the current objects that the removed entries name |
| Registry.Registry.Apply | internal/backend/registry.go:193-242 | equals the specification of one apply, and changes nothing on an error |
| Registry.FirstFailureReported | internal/backend/registry.go:193-229 | for any diff the list is built exactly when every entry can be, and otherwise the error is that of the first entry that does not parse, has no live backend, or is in neither set |
| Registry.BuildOfDiff | internal/backend/registry.go:193-229 | for a diff of two valid lists the built list follows the new order, reuses kept objects and creates fresh ones for added entries |
| Registry.ApplySimulates | internal/backend/registry.go:158-242 | applying a diff to a consistent registry succeeds; the list reads the new configuration in order, kept entries keep their object, added ones are fresh, unremoved and unhealthy, exactly the unlisted objects are retired, and the version rises by one |
| Registry.ApplyListsTheDiff | internal/backend/registry.go:158-242 | the added and removed objects returned are the diff's entries, one for one and in its order |
| App.App.constructor | internal/app/app.go:96-159 | startup lists the configured backends as version 1 and seeds one healthy, closed and idle series per backend and the one algorithm series |
| App.App.RetireAll | internal/app/app.go:289-297 | every removed backend loses prober, window and two series, and gets a drain |
| App.App.SeedAll | internal/app/app.go:298-308 | every added backend is seeded unhealthy and closed, and at 0 active unless the same reload removed its name |
| App.App.ReloadLocked | internal/app/app.go:235-328 | one reload equals its specification; a rejection for any of the three reasons leaves the whole state as it was |
| App.App.ReloadValidated | internal/app/app.go:226-232 | a reload and its record; from any state a run leaves, a valid configuration is refused, the record apart changing nothing, exactly for a changed non-backend field, and adopted otherwise |
| App.App.ReloadFrom | internal/app/admin.go:96-123 | from any state a run leaves, the answer names the first of parsing, validation and the non-backend comparison that refuses the document, and nothing but the record changes; otherwise the document is loaded and its backends are listed in its order |
| App.SeriesAfterReload | internal/app/app.go:198-222 | which series an accepted reload seeds, deletes or leaves, name by name, including a name removed and added at once |
| App.ReloadStep | internal/app/app.go:235-328 | a valid configuration is accepted exactly when its non-backend fields are the loaded ones |
| App.DocumentOutcome | internal/app/admin.go:96-123 | for every document and every state of a run, which of the three refusals it meets or, exactly otherwise, that it is loaded, listed and selected by, with kept objects, health and windows untouched |
| App.ValidatedOutcome | internal/app/app.go:226-328 | the same for a configuration validated before |
| App.RunOk | internal/app/app.go:178-328 | in every run the registry lists the loaded backends, non-backend fields are the startup ones, selector and the single algorithm series name the loaded algorithm, the series and probers are the live backends', every live name has an active series, and drains were started for exactly the retired |
| App.RejectionChangesOnlyTheRecord | internal/app/admin.go:78-123 | deleting every rejected attempt from a run leaves its final state the same, the last-reload record apart |
| App.RecordReportsLatest | internal/app/admin.go:66-99 | after any run the record is the outcome and time of its latest attempt, and nothing if there was none |
| App.RetiredForGood | internal/backend/registry.go:158-242 | across any run the version counts accepted reloads, retired objects never return and joining objects are fresh |
| Outlier.OutlierWindow.Observe | internal/health/outlier.go:150-163 | the circular buffer appends an outcome, evicting the oldest once full, and its counter stays the number of failures held |
| Outlier.OutlierWindow.Reset | internal/health/outlier.go:167-173 | a reset window is a new one |
| Outlier.OutlierWindow.Record | internal/health/outlier.go:125-131 | the reset, observation and ejection guard of one round trip |
| Outlier.OutlierDetector.ObserveRoundTrip | internal/health/outlier.go:110-147 | updates this backend's window only and, exactly when it ejects, clears the health bit and writes the gauge |
| Outlier.OutlierDetector.Forget | internal/health/outlier.go:100-104 | discards one backend's window and leaves the others |
| Outlier.UnrolledSlides | internal/health/outlier.go:150-163 | storing at the cursor and advancing it modulo the size slides the unrolled window |
| Outlier.SlideFailures | internal/health/outlier.go:150-163 | adding the newcomer and subtracting the evicted keeps the failure count exact |
| Outlier.WindowIsLastTen | internal/health/outlier.go:71-80 | in every run the window holds the last ten outcomes since the last reset of a log that forgets nothing |
| Outlier.EjectsExactlyOnBurst | internal/health/outlier.go:110-147 | it ejects exactly on a failure that makes the last 10 outcomes of an open episode hold 5 failures, counted position by position |
| Outlier.EjectsOnFifthFailure | internal/health/outlier.go:129-130 | an ejection comes from an episode not yet ejected that held fewer than five failures, and finds exactly five |
| Outlier.EjectionsAreApart | internal/health/outlier.go:122-131 | between two ejections without a Forget the backend was observed healthy, at least four observations before the second |
| Checker.Checker.Add | internal/health/checker.go:165-186 | registers one fresh prober unless one exists; only a reload's backend is marked unhealthy |
| Checker.Checker.Remove | internal/health/checker.go:191-201 | unregisters the backend and nothing else |
| Checker.Prober.ProbeOnce | internal/health/checker.go:237-292 | one probe updates counters, bit, gauge and latch as specified; a cancelled probe changes nothing |
| Checker.Prober.MarkProbed | internal/health/checker.go:298-306 | a prober is counted once, and the latch is set by the one that completes the count |
| Checker.CountersAreTrailingRuns | internal/health/checker.go:237-292 | a startup prober's counters are the lengths of the trailing success and failure runs |
| Checker.AddedCountsFromAdmission | internal/health/checker.go:266-272 | a reload's prober is admitted by its first success and counts both runs afresh from there |
| Checker.ProbesAloneDecide | internal/health/checker.go:237-287 | judged by probes alone a backend is healthy, and its gauge 1, exactly when every three failures in a row were followed by two successes in a row |
| Checker.RecoveryTakes | internal/health/checker.go:246-272 | k successes in a row reinstate exactly when they reach the threshold counted from the streak already held, or one admits a reload's backend |
| HealthRuns.GaugeAgreesInEveryRun | internal/health/checker.go:212-287 | in every run of probes, observations and reloads the gauge of each live backend equals its health bit, no other name has a series, three probe failures in a row imply unhealthy, a backend awaiting admission is unhealthy, and the latch is set exactly when enough backends were reached |
| HealthRuns.OnlyProbesReinstate | internal/health/outlier.go:42-46 | only a successful probe of a live backend makes it healthy |
| HealthRuns.AdmittedByFirstSuccess | internal/health/checker.go:154-186 | in every run a backend that a reload added stays unhealthy until its own first successful probe, which alone makes it healthy |
| HealthRuns.LatchWithoutReload | internal/health/checker.go:202-209 | without a reload the latch is set exactly when every startup backend has been probed |
| HealthRuns.LatchWrongExactly | internal/health/checker.go:203-306 | in every run, reloads and all, the latch is set with a startup backend never probed exactly when at least as many later backends as missing startup ones were probed; it is set whenever all startup backends were |
| HealthRuns.LatchUnsetExactly | internal/health/checker.go:203-306 | with every live backend probed the latch is unset exactly when fewer backends were probed than started, and then some startup backend was removed unprobed |
| HealthRuns.LatchUnsetAfterReload | internal/health/checker.go:294-306 | a legal run with a reload that leaves every live backend probed and the latch unset |
| HealthRuns.LatchAfterReload | internal/health/checker.go:294-306 | a legal run with a reload in which the latch is set and a live startup backend was never probed |
| HealthRuns.NextProbeReinstates | internal/health/checker.go:251-265 | from any reachable state and window, five failed round trips leave a healthy backend ejected, and the next successful probe alone reinstates it exactly when its success streak is running |
| HealthRuns.EjectedThenOneProbe | internal/health/checker.go:251-265 | a run from startup in which one successful probe after a passive ejection reinstates |
| Accounting.ReqState.Activate | internal/proxy/proxy.go:93-98 | claims one slot on the backend and on its name's gauge together |
| Accounting.ReqState.Release | internal/proxy/proxy.go:102-109 | gives the slot back on both the first time, and does nothing after |
| Accounting.ActiveCountsRequests | internal/proxy/proxy.go:88-109 | in every run ActiveConns equals the activated and unreleased requests, every slot is on a live or draining backend, every live name has a series, and no live backend is retired |
| Accounting.SeedsAsReloadDoes | internal/app/app.go:298-305 | the seeding of these runs is the reload's own |
| Accounting.StepAgrees | internal/app/drain.go:102-134 | one step keeps every gauge equal to the sum over live and draining instances exactly when it is safe |
| Accounting.GaugeIsSumExactlyWhenSafe | internal/app/app.go:287-308 | every gauge equals its sum throughout a run exactly when each reload seeds only names without busy draining instances and each drain deletes a series only when the name is in use or no other instance is busy |
| Accounting.PatientRunsAgree | internal/app/drain.go:41-43 | so it does in every run whose reloads touch no name that is still draining |
| Accounting.ReAddedTooSoon | internal/app/app.go:298-305 | a legal run after which the gauge reads -1 with no request in flight |
| Accounting.DrainOnlyFalls | internal/app/drain.go:26-31 | a draining backend's count never rises, and a forgotten one holds no slot ever again |
| Accounting.DrainsAreRecorded | internal/app/drain.go:43-122 | in every run a backend that was ever live is live, draining or had its drain completed, exactly as the run's choices say, and its window expired exactly when the run says so |
| Drain.WaitActiveZero | internal/app/drain.go:65-100 | the polling loop ends at the first reading of zero, at the window's end only if bounded, or at shutdown |
| Drain.DrainBackend | internal/app/drain.go:43-63 | the two waits are one machine, and Retire runs exactly when the first wait elapses busy |
| Drain.PhaseIsEarned | internal/app/drain.go:25-63 | idle exactly on a first reading of zero inside the window, retired exactly when the whole window passed busy, expired exactly on a later poll of zero, given up exactly on a shutdown before either, waiting exactly otherwise |
| Drain.BackendNameInUse | internal/app/drain.go:127-134 | true exactly when some live backend has the name |
| Drain.CompleteDrain | internal/app/drain.go:108-122 | deletes the series exactly as the drained step of the accounting runs does |
| Proxy.ModifyResponse | internal/proxy/proxy.go:368-388 | a response keeps its own status, tells observers success exactly below 500, tells them nothing of a removed backend, and keeps the slot |
| Proxy.ErrorHandler | internal/proxy/proxy.go:418-451 | the three tiers in order, 499 exactly for a client that left before any drain expired and 502 otherwise, each with its breaker call, and the slot released once |
| Proxy.ServeHTTP | internal/proxy/proxy.go:287-333 | a refused request touches no counter and answers 503, or 502 for another selection error; a dispatched one answers the response's status, 499 or 502, and gives its slot back exactly once however many releases follow |
| Proxy.OnlyGenuineFailuresCount | internal/proxy/proxy.go:390-417 | given that only removed backends' drains expire, a failure is counted exactly for a live backend's 5xx or a round trip that broke with the client still there; a client that left is never one |
| Proxy.StatusTellsTheEnding | internal/proxy/proxy.go:418-446 | a failed round trip is answered 499 exactly when the breaker is told to re-arm and, for a live backend, 502 exactly when it is told a failure; an expired drain is always 502, a response keeps its status |
| Proxy.EndingsArePermitted | internal/proxy/proxy.go:267-274 | an ending tells the breaker nothing only of a removed backend, and every call it makes is one the wedge theorem permits |
| Proxy.EveryEndingFreesTrial | internal/proxy/proxy.go:390-446 | whichever way a request of a live backend ends, its undisturbed breaker call leaves no half-open trial taken |
| Whole.ReloadAccounts | internal/app/app.go:270-308 | what an accepted reload installs is a legal step of the accounting run and leaves the same live backends and active series |
| Whole.ReloadJudges | internal/app/app.go:270-311 | it is a legal step of the health run and leaves the same live backends, probers, windows and health series |
| Whole.ReloadCircuits | internal/app/app.go:270-308 | it is a legal step of the circuit run and leaves the same live backends and circuit series |
| Whole.EveryReloadIsLegal | internal/app/app.go:226-311 | every accepted reload of a state that the accounting and health runs agree with advances both by one legal step |
| Whole.JointRunsAgree | internal/app/app.go:226-328 | in every joint run of reload attempts, requests, drains, probes, observations and breaker calls the four systems agree on live backends and series, and each stands where a legal run of its own leads |
| Whole.JointSeriesAgree | internal/app/app.go:198-222 | in every joint run each live backend's health series equals its bit, ActiveConns counts its requests, and active series equal the sums exactly as long as every step is safe |
| Whole.JointCircuitsRead | internal/app/app.go:198-222 | in every joint run each live backend's circuit series reads its state, except that it reads open while half-open after a promotion won by a scan, and no other name has a circuit series |

## Left out

- HTTP transport, reverse-proxy internals, TLS, h2c, listeners and graceful shutdown: a dispatched request is taken to end in a response followed by body Close, or in the error handler; 101 upgrades are excluded.
- Prometheus and logging: gauges are maps from label to value, transitions are events of a history, log lines are not modelled.
- YAML decoding, URL parsing, host:port syntax, files and process environment: predicates and maps given to the model. Error texts are reduced to their kind.
- Timers and tickers: a clock that moves forward by arbitrary amounts, and arbitrary sequences of wake-ups.
- `RoundRobin`, `LeastConnections`, `PowerOfTwoChoicesEWMA`, EWMA latency and the selector switch: each picks from the list that `BoundedLoads.Selectable` models, by a rotating counter, a minimum, or random draws compared by floating-point latency, and no result here depends on which backend of that list is picked. A selector is its algorithm's name in `App`.
- Statistical claims (ring uniformity, skew, hot keys) and benchmarks.
- BoundedLoads.CapacityFor: the ceiling is the exact rational one; rounding of the source's floating-point mean is not modelled. `ClosedLoopBound` and `FallbackIsDead` are about this ceiling.
- Hash.OneByteApart: a key is a sequence of characters standing for bytes; encodings are not modelled.
- Integer widths outside the hash: counters and versions are unbounded.
- Circuit.Backend.Retry: the five loops of the source differ only in what one pass decides, so they share this one loop, instantiated five times.
- CircuitRuns.NoHalfOpenWedge: each thread serves one request, so a thread name stands for a request.
- Breaker.GaugeAgrees: each breaker call is one step of the run, because the source writes the gauge after the swap without atomicity, so two racing calls may write it in either order; the methods of `Breaker.Breaker` allow rivals, and `CircuitRuns.TransitionsAreReportedOnce` counts interleaved reports.
- BoundedLoads.Select: reads one consistent pool; the circuit promotion that `Selectable` performs on the way is modelled in `Circuit.Backend.CircuitOpen`, and the iterator is run to its end before the admission loop, which the walk's finiteness makes equivalent.
- Registry.Registry.Apply: backend objects are handles and their flags sets of handles, so the model does not capture aliasing between the registry's list and other holders of the same pointer beyond equality of handles; apply is one step, so that flags are set before the list is published cannot be observed.
- App.App.ReloadLocked: probers, windows and drains are the sets of backends that have one; what they do is in `Checker`, `Outlier` and `Drain`.
- HealthRuns.GaugeAgreesInEveryRun: one probe and one observation are each one step; a removed backend's late outcome is dropped, as the prober's cancellation and the proxy's check make it.
- Config.Validate: works on values, so the defaults the source has already filled in when it rejects a document are not visible.
- Checker.Checker.Remove: waiting for the prober's goroutine to exit is the `cancelled` case of `ProbeOnce`, not a wait.
- Accounting.ActiveCountsRequests: selection, admission and activate are one step, so no request is activated after the swap that removed its backend.
- Drain.DrainBackend: the reading at the window's end is taken once; the source reads the count twice there.
- Demo, deployment, bench and command code, the health endpoints, and mid-body death logging.
