# Gateway control plane: models and proofs

This project models the control plane of the gateway and the retry machine that runs on top of it, and
proves what they keep in every interleaving, on every input, or over every run. The parts and their
modules:

- **Shared service watch** (`ServiceWatch`, `ServiceWatchProofs`, `ServiceWatchFreshness`,
  `ServiceWatchReports`, `ServiceWatchCleanup`, `ServiceWatcherObject`). Every region under `serviceWatcher.lock` is one atomic step on a table. What
  runs between regions (an `Add` that owes a callback, the position of each watch loop, the cleanup
  goroutine) is explicit state. The class does the same regions in place, proved against the functions
  the state machine uses.
- **Health checker and node applier** (`HealthModel`, `HealthProofs`, `HealthCheckerObject`,
  `NodeApplier`, `NodeApplierSystem`). The three maps are related to the history of pushes, failures and
  probes, and one applier is run together with the shared watch.
- **Request attempts** (`AttemptModel`, `AttemptProofs`, `AttemptTrace`, `Attempts`). Selection, dispatch and retry
  loops run over one set of request options. What the surroundings decide (node lists, picks, answers,
  breaker, context, feature switch) comes from a script, so each theorem holds for all surroundings.
- **Routers and clients** (`RouterLifecycle`, `DrainProofs`, `OwnershipProofs`, `ProxyObject`). Reloads,
  requests and closing routers are interleaved step by step, with a time on every step.
- **Hot reload** (`Environment`, `ReloadModel`, `ReloadProofs`, `FileLoaderObject`): environment,
  snapshot, hashes, handlers and serving router as one transaction. The priority directory is merged by
  `PriorityMerge`; YAML decoding and SHA-256 are function parameters.
- **Last known-good file** (`FileGuardModel`, `FileGuardProofs`, `FileGuard`). Every file operation may
  fail.
- **Priority merge** (`PriorityMerge`), **path patterns** (`Regex`, `PathPattern`, `PathSpelling`,
  `PathPatternSyntax`, `PathPatternProofs`, `PathMatcher`), **path cleaning and keys** (`PathClean`, `PathCleanProofs`),
  **percent encoding** (`PercentEncoding`).

`dafny verify dfyconfig.toml` checks the whole project.

## Where the code does less than one might expect

Each of these is a theorem; the members with `Iff` in their name give the exact condition under which the
expected property holds.

- A `context.Canceled` from the registry that nobody asked for ends the watch of an endpoint that still
  has appliers. A step breaks liveness if and only if it is such an event (`StepKeepsLiveIff`,
  `SpuriousCancelLosesTheWatch`, `SpuriousCancelEndsTheWatch`).
- The callback that `Add` makes after unlocking can be overtaken, so the list an applier saw last can be
  older than the cache (`LastCallbackCanBeStale`). `StepKeepsFreshIff` says before a step whether it does
  that, `OvertakingHasACause` names the three causes, and the next delivery repairs it
  (`DeliveryRefreshesEveryApplier`).
- Callbacks that overlap can leave the picker offering a node that the health filter refuses although it
  never failed; an `Add`'s cached callback beside a delivery of the watch loop is enough
  (`NodeApplierSystem.OverlapHidesANode`). No offered node is refused without cause if and only if every
  address of the list that reached the picker last is in the list that reached the checker last, or had a
  probe pass after it was last dropped (`NoneRefusedWithoutCauseIff`). Callbacks one at a time are safe
  (`OfferedNodesAreTracked`).
- A successful `Update` leaks the client of every endpoint whose route cannot be registered
  (`NothingLeaksIff`, `LeakedForever`).
- With several reload handlers a call is all or nothing if and only if they agree (`AllOrNothingIff`).
- An override that comes after a prepended endpoint lands on the wrong place and is never repaired
  (`MergeIsIntendedIff`, `OverrideAfterPrependIsLost`).
- A rejected update is not taken back from a target that existed and was empty, because empty contents are refused on
  restore too (`TakenBackIff`, `EmptyFileIsNotRestored`).
- A client with `maxRetries <= 0` returns neither response nor error, and the handler then panics
  (`TripEmptyIff`, `NeverPanicsIff`). Nothing in the repository builds such a client: the value is 1 unless
  `WithMaxRetries` is passed to `newClient`, and no caller passes it.
- A failed dispatch is reported to the selector once, and the last one a second time when the round trip
  is given up; the status list then holds one entry more than there were dispatches (`TripReports`,
  `TripAccounts`).
- A `/**` that is not last ends the pattern: with only stars behind it the pattern means what it would
  mean if it ended there, and with anything else behind it, it accepts no path (`InnerDoubleStar`).
- In a pattern, `.` does not match a newline, so `/**` and a bare `*` refuse a rest that contains one
  (part of the direct meaning in `PathPattern.Means`).

## Model

| member | source | states |
|---|---|---|
| ServiceWatchProofs.StepKeepsInv | client/servicewatch.go:66-334 | Every atomic step of Add, watch loops and cleanup keeps: one loop per status, deliveries in progress equal the cache, every registered applier informed or owed, ids awaiting deletion belong to cancelled appliers |
| ServiceWatchProofs.RunKeepsInv | client/servicewatch.go:66-334 | The invariant holds in every reachable state |
| ServiceWatchProofs.NoLostUpdate | client/servicewatch.go:105-215 | In every reachable state each applier registered on an endpoint with a non-empty cache was called for the very write that put the list there, or its own Add or exactly the current loop still owes that call; before the write nobody had made or owed it |
| ServiceWatchReports.CacheWasReported | client/servicewatch.go:146-163 | In every run, what a status caches once it was written is exactly a list that the registry reported to the loop of that status, and its watcher is one the registry gave to that loop |
| ServiceWatchReports.CallbackWasReported | client/servicewatch.go:205-215 | Every callback made or owed carries a list that the registry reported to the loop of the status it comes from, whole and unchanged |
| ServiceWatchReports.ReportIsCached | client/servicewatch.go:205-215 | If the registry reports a non-empty list and the status is still current at the loop's next step, after that step the status caches that list and the loop owes it; otherwise nothing changes |
| ServiceWatchReports.ReportIsDelivered | client/servicewatch.go:243-263 | The loop's step after that calls everybody then registered on the endpoint with exactly that list |
| ServiceWatchReports.WatcherIsInstalled | client/servicewatch.go:187-195 | The watcher the registry gives is installed if the status is still current; otherwise the loop ends |
| ServiceWatchReports.FailureIsRetried | client/servicewatch.go:169-184 | A failure other than context.Canceled leads to a wait and a new watch, unless the context is cancelled meanwhile |
| ServiceWatchReports.CancelledLoopWatchesNoMore | client/servicewatch.go:169-184 | Once its context is cancelled a loop starts no watch and no wait any more |
| ServiceWatchReports.RemovesOnlyWhenTold | client/servicewatch.go:169-184 | A loop begins to remove its entry only when its context is cancelled or the registry said context.Canceled |
| ServiceWatchProofs.AddRegistered | client/servicewatch.go:114-119 | Add registers exactly the given applier under the given id on the given endpoint, and changes no other registration |
| ServiceWatchProofs.StepKeepsLiveIff | client/servicewatch.go:138-203 | A step breaks liveness if and only if the registry reports context.Canceled to the loop of a current status |
| ServiceWatchProofs.HonestRunKeepsLive | client/servicewatch.go:138-203 | Up to the first spurious context.Canceled all current statuses stay uncancelled and all appliers stay watched |
| ServiceWatchProofs.OnlyWhenCancelledIsHonest | client/servicewatch.go:138-203 | A registry that reports context.Canceled only for a cancelled context never reports it spuriously |
| ServiceWatchProofs.EveryApplierIsWatched | client/servicewatch.go:105-203 | In every run without a spurious context.Canceled, every endpoint with an applier has a current uncancelled status and exactly one live loop, or one Add about to start it |
| ServiceWatchProofs.ReplacedStaysReplaced | client/servicewatch.go:187-203 | A status that lost its entry never becomes current again |
| ServiceWatchProofs.ReplacedLoopIsInert | client/servicewatch.go:66-75 | From then on its loop writes no cache, installs no watcher and deletes no entry, its successor's included |
| ServiceWatchProofs.CacheHasOneWriter | client/servicewatch.go:205-215 | A cache changes only by the loop of that current status, which then owes the callbacks |
| ServiceWatchProofs.OnlyCancelledAreRemoved | client/servicewatch.go:265-310 | An applier disappears only in cleanup and only if it is cancelled, although ids are collected and deleted in different lock regions |
| ServiceWatchCleanup.RemovedOnlyAfterCancel | client/servicewatch.go:265-310 | An applier disappears only in a step of cleanup, after its owner has cancelled it |
| ServiceWatchCleanup.RoundRemovesCancelled | client/servicewatch.go:265-310 | Whoever was cancelled before a cleanup round began is gone when the round is over, whatever happens meanwhile |
| ServiceWatchCleanup.UnusedWatchIsDropped | client/servicewatch.go:312-334 | If nobody is registered when an endpoint is rechecked after ids were deleted, its entries go |
| ServiceWatchCleanup.UnusedWatchIsCancelled | client/servicewatch.go:312-334 | And the next step of cleanup cancels the context of the status that was dropped, which is never current again |
| ServiceWatchProofs.TornDownOnlyWhenUnused | client/servicewatch.go:312-334 | A watch is torn down only at an instant when its endpoint has no applier |
| ServiceWatchProofs.CancelledOnlyAfterTeardown | client/servicewatch.go:312-334 | A status whose context is cancelled is no longer current |
| ServiceWatchProofs.SpuriousCancelLosesTheWatch | client/servicewatch.go:138-203 | A reachable state with an applier and no watch, after a spurious context.Canceled |
| ServiceWatchProofs.SpuriousCancelEndsTheWatch | client/servicewatch.go:166-203 | In every run, after a spurious context.Canceled that loop can only end, and once it has ended its entry is gone |
| ServiceWatchProofs.LastCallbackCanBeStale | client/servicewatch.go:120-126 | A reachable state where the last list an applier saw is older than the cache and nothing is owed |
| ServiceWatchProofs.DeliveryRefreshesEveryApplier | client/servicewatch.go:243-263 | A delivery of the current loop leaves every registered applier with the cached list |
| ServiceWatchFreshness.StepKeepsFreshIff | client/servicewatch.go:105-263 | From a state where every applier that nobody is about to call saw the cached list last, a step leads to such a state if and only if, before it, it is not about to call an applier with another list than the cached one while nobody else is about to call that applier |
| ServiceWatchFreshness.OvertakingHasACause | client/servicewatch.go:120-126 | In every run a step that does so is a late callback of an Add whose write is no longer the latest, a delivery of a replaced loop, or a delivery to an applier that is registered on a second endpoint |
| ServiceWatchFreshness.WithoutOvertakingFresh | client/servicewatch.go:105-263 | In a run without such steps every applier that nobody is about to call has seen the cached list last |
| ServiceWatcherObject.ServiceWatcher.Add | client/servicewatch.go:105-135 | The locked half of Add refines the table function and says whether a loop must start or a cached callback is owed |
| ServiceWatcherObject.ServiceWatcher.SetWatcher | client/servicewatch.go:187-195 | Installs a watcher exactly when the status is current |
| ServiceWatcherObject.ServiceWatcher.SetSelectedCache | client/servicewatch.go:66-75 | Writes the cache exactly when the status is current |
| ServiceWatcherObject.ServiceWatcher.RemoveWatcher | client/servicewatch.go:197-203 | Deletes the entry exactly when it is the status's own |
| ServiceWatcherObject.ServiceWatcher.DoCallback | client/servicewatch.go:243-263 | Calls every registered applier with the list, and no other |
| ServiceWatcherObject.ServiceWatcher.CollectCancelled | client/servicewatch.go:265-310 | Collects exactly the ids whose applier is cancelled |
| ServiceWatcherObject.ServiceWatcher.DeleteCollected | client/servicewatch.go:265-310 | Deletes exactly the collected ids of one endpoint |
| ServiceWatcherObject.ServiceWatcher.StopIfUnused | client/servicewatch.go:312-334 | Drops appliers entry and status together, exactly when no applier is left |
| HealthProofs.HistoryRefined | client/health_checker.go:108-302 | After any history the maps say of each address exactly what the history says: listed, counted failures since the latest fresh start, healthy below the limit |
| HealthProofs.HealthRefinesHistory | client/health_checker.go:188-209 | IsHealthy holds if and only if there is a fresh start not dropped since, with fewer than maxFailures failures after it; the counter is exactly that number; nodes are contained in the common keys of both state maps |
| HealthProofs.BelowLimitIff | client/health_checker.go:197-209 | Healthy means below the limit for every history if and only if maxFailures is at least 1 |
| HealthProofs.KeysAligned | client/health_checker.go:108-164 | For every limit: listed addresses have counters and both state maps have the same keys |
| HealthProofs.PushKeepsState | client/health_checker.go:138-164 | A push changes neither health nor count of an address it keeps |
| HealthProofs.PushReplacesNodes | client/health_checker.go:138-164 | After a push exactly the pushed addresses are listed |
| HealthProofs.PushRefreshesNode | client/health_checker.go:142-163 | A push refreshes every listed node to the last one pushed with its address |
| HealthProofs.NodeIsLatest | client/health_checker.go:108-164 | After any history the node listed under an address is the one given by the last event that decided about it |
| HealthProofs.UnlistedCounterIsLateProbe | client/health_checker.go:278-283 | A counter of an unlisted address stems from a probe that passed after the address was dropped |
| HealthProofs.TrackedIff | client/health_checker.go:278-283 | The checker knows an address if and only if it is listed or a probe of it passed after it was last dropped |
| HealthCheckerObject.HealthChecker.UpdateNodes | client/health_checker.go:138-164 | The three loops refine the push on the three maps |
| HealthCheckerObject.HealthChecker.FinishProbe | client/health_checker.go:244-288 | A transport error or a status of at least 500 counts as a failure, anything else resets, without membership check |
| HealthCheckerObject.HealthChecker.MarkUnhealthy | client/health_checker.go:197-209 | Counts only known addresses and marks at the limit |
| HealthCheckerObject.HealthChecker.constructor | client/health_checker.go:46-80 | Starts with the initial nodes registered in order |
| HealthCheckerObject.RunFollowsHistory | client/health_checker.go:224-302 | In every interleaving of pushes, failed requests and probes with separate start and finish, the maps are those of the recorded history |
| HealthCheckerObject.ActionEffects | client/health_checker.go:197-302 | What each action does to each address: failures count for known addresses and only for their own, a passed probe resets, the limit makes unhealthy |
| HealthCheckerObject.RoundProbesTheListed | client/health_checker.go:224-241 | A round probes exactly the listed nodes, each once, and the next round waits for all of them |
| HealthCheckerObject.FilterRefinesHistory | client/health_checker.go:305-309 | In every such state the health filter passes an address if and only if it failed fewer than maxFailures times since its latest fresh start |
| NodeApplier.Applier.Callback | client/factory.go:214-256 | A cancelled applier refuses, an empty list changes nothing; any other list puts the nodes of exactly the resolvable instances into the picker, each behind those of the instances before it, and updates the checker, if there is one, with them |
| NodeApplier.CollectNodes | client/factory.go:222-245 | One node per resolvable instance, each at the place given by the number of resolvable instances before it |
| NodeApplier.ResolvedNodes | client/factory.go:222-245 | The same of the function that specifies the loop |
| NodeApplier.NoneRefusedWithoutCauseIff | client/factory.go:246-253 | In every run, however callbacks overlap: every refused node of the picker has failed maxFailures times since its latest fresh start, if and only if each address of the list applied last is in the list the checker got last or had a probe pass after it was last dropped |
| NodeApplier.OfferedNodesAreTracked | client/factory.go:214-256 | With callbacks one at a time, a node in the picker passes the filter exactly when it is below the limit since its latest fresh start |
| NodeApplier.OverlapHidesANode | client/factory.go:246-253 | Two overlapping callbacks reach a state where an offered node that never failed is refused |
| NodeApplierSystem.PartsAreReachable | client/servicewatch.go:105-263 | In every run of watch and applier together, both parts are in states of their own runs |
| NodeApplierSystem.NoneRefusedWithoutCauseIff | client/factory.go:214-256 | The same exact condition in every run of watch and applier together |
| NodeApplierSystem.OverlapHidesANode | client/servicewatch.go:120-126 | A run of watch and applier together, in which an Add calls without lock beside a delivery, ends with an offered node that never failed and is refused |
| Attempts.FilterUntried | middleware/request.go:76-94 | The in-place compaction leaves the stable filter in front and the rest untouched, and gives back the whole untouched slice when nothing is left |
| Attempts.CollectHealthy | client/client.go:88-100 | The health filter keeps exactly the healthy nodes in order, in a new list |
| Attempts.Client.SelectNode | client/client.go:86-107 | Filters and pick refine the selection |
| Attempts.Client.RoundTrip | client/client.go:78-155 | The dispatch loop refines its specification, with backends, statuses, done calls, DoneFunc and unhealthy marks |
| Attempts.Endpoint.Serve | proxy/proxy.go:274-323 | The retry loop refines its specification, with reply, options and breaker marks |
| AttemptProofs.SelectPrefersUntried | middleware/request.go:76-94 | Whatever is picked was available, and was not tried before if any untried node was available; selection fails only if the picker does or nothing is available |
| AttemptProofs.SelectTakesAListedNode | client/client.go:103-113 | The pick is one of the listed nodes, as it was listed |
| AttemptTrace.UntriedAt | middleware/request.go:84-89 | The retry filter is stable: an untried node stands behind exactly the untried nodes before it |
| AttemptTrace.HealthyAt | client/client.go:92-99 | The health filter is stable in the same sense |
| AttemptTrace.TripTrace | client/client.go:85-154 | A round trip pass by pass: its response is the answer of its last pass, all earlier ones refused or unanswered; without response all passes were made and its error is that of the last one; the dispatches are exactly the nodes picked |
| AttemptTrace.TripStatuses | client/client.go:128-153 | The exact status list: zero per unanswered dispatch, one more when given up, the status of the answer last |
| AttemptProofs.TripAccounts | client/client.go:109-154 | A round trip only appends to backends; one status per dispatch and one more when given up; an answer sets DoneFunc and the last status |
| AttemptProofs.TripReports | client/client.go:128-152 | The exact sequence of done calls: each unanswered dispatch once, the last one again when given up |
| AttemptProofs.TripMarksFailures | client/client.go:133-137 | With a health checker exactly the unanswered dispatches are marked unhealthy, in order; without one, none |
| AttemptProofs.TripBound | client/client.go:85-146 | At most maxRetries dispatches per round trip |
| AttemptProofs.TripEmptyIff | client/client.go:148-154 | Neither response nor error if and only if no pass was made; never both |
| AttemptProofs.AttemptsSpreadOut | proxy/proxy.go:274-319 | If m addresses stay listed and healthy, the first m dispatches of a request go to pairwise different addresses, whatever the selector picks |
| AttemptProofs.RetryOutcome | proxy/proxy.go:274-323 | A round trip is made unless the context is done at first; at most attempts round trips and attempts times maxRetries dispatches; the reply is an error or the response of the last round trip |
| AttemptTrace.RetriesExactlyWhileNeeded | proxy/proxy.go:274-319 | Each round trip ends as its surroundings say, every one but the last asks for a retry, and with fewer than the configured attempts the last one asks for none or switch, breaker or context stops the next |
| AttemptTrace.AllAttemptsAreMade | proxy/proxy.go:274-319 | When nothing stands in the way and every round trip asks for a retry, exactly the configured number is made |
| AttemptTrace.ReplyIsExact | proxy/proxy.go:289-330 | The reply is the context's error if the context was done when another round trip was due and let in, and otherwise what the last round trip ended with |
| AttemptTrace.JudgeIff | proxy/condition/condition.go:120-130 | A retry is required exactly when some condition holds of the response |
| AttemptProofs.NeverPanicsIff | proxy/proxy.go:320-330 | Every request ends with something to write if and only if maxRetries is at least 1 |
| AttemptProofs.IterationMarksOnce | proxy/proxy.go:234-245 | A retry that passes the switch marks the breaker exactly once, unless an authentication error ends it, as a success exactly when its answer needs no retry; other iterations never mark |
| AttemptProofs.EachRetryMarksOnce | proxy/proxy.go:274-319 | Over a request the marks belong to different retries in increasing order, and none to the first attempt |
| AttemptProofs.ResponseIsOfLastDispatch | client/client.go:142-146 | When the round trips reach the client, a written response is that of the last dispatch: its status is last and its done function is DoneFunc |
| AttemptProofs.LastAttemptFlag | proxy/proxy.go:286-315 | The last-attempt flag is set if and only if the answer needs no retry or the last iteration was entered past switch and breaker, also if its context is done |
| AttemptModel.CalcAttempts | proxy/retry.go:35-43 | The configured number if it is positive, and one if it is missing or zero |
| DrainProofs.StepKeepsDrainInv | router/mux/mux.go:85-152 | Every step keeps: the wait group counts the requests inside, only the last router serves, and all times fit |
| DrainProofs.DrainBeforeClose | router/mux/mux.go:127-152 | Without timeout, every request that entered before the wait began left before any closer of that router ran |
| DrainProofs.LateRequestsOnly | proxy/proxy.go:439-470 | A request inside a closing router loaded it before the swap, and entered after the drain unless the wait timed out |
| DrainProofs.CounterIsExact | router/mux/mux.go:85-90 | The wait group is never negative and zero exactly when nobody is inside |
| OwnershipProofs.BuildParts | proxy/proxy.go:406-422 | Every client handed out while a router is built is, once, in its closer list, or left without route, or closed on the spot |
| OwnershipProofs.BuildPlaces | proxy/proxy.go:208-229 | The client handed out for each endpoint goes where the endpoint's fate says: closed on the spot, without route, or into the closer list |
| OwnershipProofs.SwappedIff | proxy/proxy.go:424-441 | A configuration without endpoints or with at least one route is swapped in, any other one is not |
| OwnershipProofs.ReversedAt | proxy/proxy.go:415-416 | Deferred closes run last in, first out |
| OwnershipProofs.StepKeepsOwnership | proxy/proxy.go:401-457 | Every step keeps each client accounted for: one place in one closer list, or leaked, or closed once by Update |
| OwnershipProofs.ClientsHaveOneOwner | proxy/proxy.go:401-442 | In every reachable state: one owner per client, closed at most once, serving clients never closed, clients of a finished router closed exactly once |
| OwnershipProofs.ClosedUnderRequest | router/mux/mux.go:127-138 | A request in a router with a closed client loaded it before the swap and entered after the drain, or the wait timed out |
| OwnershipProofs.DrainedBeforeAnyClose | router/mux/mux.go:127-152 | Without timeout, a request that entered before the wait began left before the time at which the log has any client of that router closed |
| OwnershipProofs.FailedUpdateCleansUp | proxy/proxy.go:424-427 | A failed Update keeps all routers and closes exactly the clients it built, each once |
| OwnershipProofs.NothingLeaksIff | proxy/proxy.go:406-422 | Every client built by an Update ends owned or closed if and only if it fails or no route registration fails |
| OwnershipProofs.LeakedForever | proxy/proxy.go:415-420 | A leaked client is never owned and never closed later |
| ProxyObject.Proxy.Update | proxy/proxy.go:401-442 | Fails exactly when endpoints exist and none is routed; the closes, their order, the swap and the new closer list |
| ProxyObject.Proxy.BuildEndpoint | proxy/proxy.go:208-229 | A client whose chain cannot be built is closed before returning |
| ProxyObject.MuxRouter.CloseAll | router/mux/mux.go:131-136 | Closers run once each, in order of registration |
| Environment.RollbackInverts | config/config.go:164-195 | Rolling back after any part of the keys was set gives the starting environment |
| Environment.Process.ApplyEnvs | config/config.go:164-195 | All entries are set, or the environment is exactly as before; succeeds if and only if every entry is settable |
| Environment.Process.Rollback | config/config.go:166-180 | Puts every recorded value back, unsets what was absent, and cannot fail |
| Environment.SettableIff | config/config.go:188-190 | Which entries os.Setenv takes, by characters |
| ReloadProofs.AllOrNothingIff | config/config.go:296-331 | A call is all or nothing if and only if the handlers are not reached or agree |
| ReloadProofs.ReachesIff | config/config.go:143-157 | Handlers are reached exactly when the bytes parse and every entry can be set, and they are given the parsed configuration with the priority directory merged over its endpoints |
| ReloadProofs.ServedIsIntended | config/config.go:152-154 | With replacements before new endpoints the served endpoints are the intended merge |
| ReloadProofs.EachPartIsLastGood | config/config.go:296-331 | With any number of handlers, agreeing or not: snapshot and hashes are those of the last call all accepted, the environment is the overlay of all such calls, and each handler runs the last configuration it accepted itself |
| ReloadProofs.RunStaysConsistent | config/config.go:136-157 | In every state of a run the hash is that of the snapshot and the snapshot decodes |
| ReloadProofs.LastKnownGood | config/config.go:296-331 | With the one reloader, snapshot, hashes and served configuration are those of the last successful call and the environment is the overlay of all successful ones |
| ReloadProofs.ReloadMovesTheRouterToo | cmd/gateway/main.go:122-134 | With Proxy.Update as handler the serving router moves exactly when environment, snapshot and hashes do |
| FileLoaderObject.FileLoader.ExecuteLoader | config/config.go:296-331 | Refines the transaction, with environment, handlers and fields changed in place |
| FileLoaderObject.FileLoader.DecodeConfig | config/config.go:143-157 | The parsed environment, and the parsed endpoints merged with those of the priority directory; no configuration exactly when the bytes do not parse |
| FileLoaderObject.FileLoader.Load | config/config.go:136-141 | On a consistent loader it cannot fail, and gives the snapshot merged with the directory as it is now |
| FileLoaderObject.NotifyAll | config/config.go:314-319 | All handlers run, also after one failed; succeeds if and only if all accept |
| FileLoaderObject.NewFileLoader | config/config.go:62-103 | A loader exists if and only if the priority directory can be made and hashed, the source loads and its bytes decode; it starts consistent with those bytes |
| ReloadProofs.LoopsRunWhileSubscribed | config/config.go:265-293 | Over any Watch and Close calls: the handlers before the first Close count; one loop for a local file, one for a remote source and one more for its priority directory are started once, after the first handler is visible, and told to end exactly when Close follows |
| FileLoaderObject.FileLoader.Changed | config/config.go:417-421 | The committed bytes and hashes are never reported as changed |
| FileGuardProofs.StaysGoodIff | pkg/loader/source.go:303-340 | An event keeps target and runtime good if and only if no needed restore fails |
| FileGuardProofs.LastKnownGoodFile | pkg/loader/source.go:303-340 | Over any events the target holds the bytes of the last one written, validated and applied, with the initial mode, and the runtime runs them |
| FileGuardProofs.TakesIff | pkg/loader/source.go:211-260 | An update is taken exactly when it is not empty, no file operation on the way fails, and validator and runtime like it |
| FileGuardProofs.TakenIsOnDisk | pkg/loader/source.go:211-219 | From any state a taken update is on disk with the mode the file had, or 0600 for a new one, and is what the runtime runs |
| FileGuardProofs.OthersChangeNothing | pkg/loader/source.go:312-324 | Watch errors, deletions and empty, faulty or invalid updates change nothing |
| FileGuardProofs.TakenBackIff | pkg/loader/source.go:283-291 | From any state, exactly when a rejected update is undone on disk |
| FileGuardProofs.EmptyFileIsNotRestored | pkg/loader/source.go:221-224 | A rejected update stays on disk when the previous file was empty |
| FileGuardProofs.ModeIsConstant | pkg/loader/source.go:211-219 | The mode of an existing target never changes, whatever fails |
| FileGuardProofs.NeverTorn | pkg/loader/source.go:221-260 | Whatever fails, the target holds its first contents or a whole validated update |
| FileGuard.Disk.ReplaceFile | pkg/loader/source.go:221-260 | The target changes by the rename alone; a temporary file stays behind exactly when the replacement fails after making it and its removal fails too |
| FileGuard.Disk.RestoreFile | pkg/loader/source.go:283-291 | Puts the snapshot back with its mode, or removes a file that was not there |
| FileGuard.Disk.SyncFile | pkg/loader/source.go:293-299 | On success the target is the loaded, non-empty, validated content; on failure unchanged |
| FileGuard.FileWatch.OnEvent | pkg/loader/source.go:312-339 | The callback refines the event step and reports every event that is not taken |
| PriorityMerge.MergeIsIntendedIff | config/config.go:246-262 | With distinct base keys the merge gives the intended endpoints if and only if no replacement comes after a prepend |
| PriorityMerge.MergeIsIntended | config/config.go:246-262 | For any base: with replacements first, untouched endpoints survive in order, overridden ones hold the last override, new ones stand in front |
| PriorityMerge.Merge | config/config.go:246-262 | The indexed place always exists, and the length is that of the base plus the items with new keys |
| PriorityMerge.KeyIff | config/config.go:247-249 | Keys are equal exactly for equal method and path, or where a dash inside a method can be taken for the separator |
| PriorityMerge.ItemsAt | config/config.go:208-223 | The endpoints of each readable yaml file stand together, in order, behind those of the entries before it; other entries bring none |
| PriorityMerge.YamlExtIff | config/config.go:212-214 | A file counts exactly when its name ends in .yaml |
| PriorityMerge.OverrideAfterPrependIsLost | config/config.go:254-261 | One new endpoint before one override: the override replaces the new endpoint and the old one survives |
| PriorityMerge.MergePriorityConfig | config/config.go:198-226 | The loops over directory and items refine the merge of all readable yaml files in order |
| PathPatternSyntax.RewritingParses | middleware/routerfilter/routerfilter.go:81-140 | The rewritten text of a well-formed pattern compiles, to the intended regular expression |
| PathPatternProofs.PathMeaning | middleware/routerfilter/routerfilter.go:88-135 | From every position the generated expression matches the rest of the path exactly when the direct matcher takes its segments |
| PathPatternProofs.CompilePreservesMeaning | middleware/routerfilter/routerfilter.go:81-155 | However a pattern is spelled (blanks around it, no leading slash, one more trailing slash), the compiled text accepts a path if and only if the direct matcher does |
| PathSpelling.SpellingIff | middleware/routerfilter/routerfilter.go:82-122 | A text is trimmed and normalised to a pattern if and only if it is one of its spellings |
| PathSpelling.RequestPathIs | middleware/routerfilter/routerfilter.go:159-166 | The path that Match tests, in its three cases |
| PathPatternProofs.MatcherMeaning | middleware/routerfilter/routerfilter.go:157-174 | Match accepts exactly a listed method, if any are listed, and a request path that the pattern means: the path itself if rooted, the root if empty, else the path behind a slash |
| PathPatternProofs.InnerDoubleStar | middleware/routerfilter/routerfilter.go:108-135 | A pattern with a double star that is not last accepts a request if and only if only stars follow it and the pattern cut off behind it accepts |
| PathMatcher.CapturedParamsGiveThePath | middleware/routerfilter/routerfilter.go:175-187 | Substituting the captured values into the pattern gives the path, and each value is a non-empty segment |
| PathMatcher.AcceptedIsMatched | middleware/routerfilter/routerfilter.go:175-187 | Whenever the expression accepts there is a match to report captures from |
| PathMatcher.CollectParams | middleware/routerfilter/routerfilter.go:175-187 | The loop collects exactly the named groups |
| PathMatcher.MethodSet | middleware/routerfilter/routerfilter.go:143-146 | The method set holds exactly the upper-case methods |
| PathSpelling.ToUpperIs | middleware/routerfilter/routerfilter.go:143-146 | Small letters become the capitals at their place of the alphabet, everything else stays |
| PathCleanProofs.ValidKeyIff | pkg/loader/source.go:198-207 | validateKey accepts exactly the non-empty keys that are not rooted and do not climb |
| PathCleanProofs.DotRule | router/mux/mux.go:74 | Cleaning drops empty segments and single dots |
| PathCleanProofs.DotDotRule | router/mux/mux.go:74 | Cleaning drops a name together with the two dots behind it |
| PathCleanProofs.RootDotDotRule | router/mux/mux.go:74 | Cleaning drops two dots at the root |
| PathCleanProofs.FoldFixed | router/mux/mux.go:74 | Segments to which none of these rules applies are left as they are |
| PathCleanProofs.KeyStaysBelowRoot | pkg/loader/source.go:177-185 | For an accepted key, root joined with key cleans to the root's segments followed by the key's |
| PathCleanProofs.PathForKeyStaysBelowRoot | pkg/loader/source.go:177-185 | Refused keys give no path; accepted ones the main path or one below the root |
| PathCleanProofs.RelatedKeyIsBeside | pkg/loader/source.go:190-196 | A related key of accepted keys is accepted and stands beside the main key |
| PathCleanProofs.CleanPathIsNormal | router/mux/mux.go:67-82 | cleanPath is the cleaned segments below the root, with the trailing slash kept unless nothing is left |
| PathCleanProofs.CleanPathIdempotent | router/mux/mux.go:67-82 | cleanPath applied twice is cleanPath applied once |
| PathCleanProofs.CleanPathKeepsSlash | router/mux/mux.go:76-80 | The result is rooted, and keeps a trailing slash exactly when it is not the root |
| PercentEncoding.GrpcPercentEncode | errors/response.go:213-227 | The byte loop refines the encoding |
| PercentEncoding.RoundTrip | errors/response.go:213-227 | Decoding an encoded message gives the message, for every byte string |
| PercentEncoding.EncodeInjective | errors/response.go:213-227 | Different messages have different encodings |
| PercentEncoding.OutputIsPrintable | errors/response.go:213-227 | The output uses bytes 0x20 to 0x7E and is at most three times as long |
| PercentEncoding.EncodingIff | errors/response.go:213-227 | A string is an encoding if and only if it is well formed, and then of its own decoding |
| PercentEncoding.EncodeByteIs | errors/response.go:217-225 | A printable byte other than the percent sign stands for itself, any other byte becomes a percent sign and two capital hexadecimal digits |
| PercentEncoding.UnchangedIff | errors/response.go:217-225 | A message is left alone if and only if all its bytes are printable and none is a percent sign |

## Assumptions

- A region under a lock is one step; goroutines interleave between regions in any order.
- The selector, when asked with candidates, returns one of them or an error; with none it returns an error.
- Values in the process environment contain no NUL, as the operating system guarantees.
- `executeLoader` calls are serialised by `applyLock`. Their arguments are arbitrary, since
  `watchPriority` reads the snapshot before taking the lock; hence nothing is claimed about the newest
  call winning.
- `path.Clean` and `filepath.Join` are modelled on slash-separated segments, the regular expression engine
  by the language it accepts.

## Left out

- Registry, selector, breaker, limiter, casbin, JWT, YAML and protobuf decoding, SHA-256: libraries, given as parameters or scripts.
- HTTP servers, TLS, dialers, tracing, logging, metrics, debug handlers, response and body copying: plumbing.
- Real time: timers, tickers, per-try timeouts and the delays of `calculateRetryDelay` and of the source watch are steps that may happen.
- `instancesSetHash`: it sorts its argument in place for a log line; the instance lists of the model are values.
- Direct backends and endpoints with several discovery backends: each callback replaces the whole picker list, so no union property holds.
- Order of environment keys: the source sorts them, the model allows every order, and the result is the same.
- `sync.WaitGroup` reuse: a late entry during a concurrent wait is an ordinary step of the model, not a panic.
- Middlewares: a round trip either reaches the client or ends before it with an error or a response.
- Fields of a path matcher that nothing reads (`paramNames`, `wildcardLevel`), invalid UTF-8, and case folding beyond ASCII.
- Patterns with metacharacters in literals, where the text is taken as a regular expression.
- Route matching inside the mux router: only whether a route can be registered is modelled.
- Aliasing of the endpoint slice in the priority merge: the list is a value that is written by index.
- The RBAC cache, CORS headers, error tables, retry condition parsing and duration defaults: tables or one-branch facts.
