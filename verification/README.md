# Kubernetes: verified models of its stateful cores

A Dafny model of five stateful cores of Kubernetes and three smaller parts, with proofs of what they promise over
whole histories rather than single calls.

- **kube-proxy change tracking** (`pkg/proxy`). EndpointSlice, Endpoints and Service events pile up as pending changes;
  each sync patches long-lived maps and reports stale UDP connections. Go visits maps in any order, so a build of
  endpoint lists from slices is a relation (`SliceBuild.IsBuild`): every outcome that some visiting order gives. The main
  results say that after any history ending in a sync the maps are those of a build from scratch over the objects last
  seen, tell that reference in terms of API objects alone, and say exactly when the stale reports describe the map.
  Modules: `Patching`, `SliceBuild`, `SliceAgreement`, `SliceHistory`, `SliceCache`, `EndpointsTable`, `ChangeTracking`,
  `ObjectHistory`, `EndpointTracker`, `EndpointListing`, `ServiceTable`, `SliceRuns`, `StaleReports`.
- **kubelet pod workers** (`pkg/kubelet/pod_workers.go`). One goroutine and a one-slot channel per pod, with workers
  forgotten and recreated while old goroutines are still in a sync. Every region run under `podLock`, and every worker
  step between two such regions, is one atomic step; a run is any sequence of enabled steps. A token invariant gives
  at most one sync per pod across generations of workers and that no send blocks or panics. A ledger per pod, which the
  concurrent machine is shown to refine, gives order, conservation of every call and the fate of kill requests.
  Modules: `PodWorkers`, `PodWorkerHistory`, `PodWorkerDrain`, `PodWorkerPool`.
- **kubelet pod killer and pod status** (`pkg/kubelet/kubelet_pods.go`). The killer is a lock, a bounded channel and two
  mark maps; the proofs cover duplicate suppression, absence of deadlock although the lock is held over a blocking
  send, and draining. The status code is five passes over a map of statuses; it is shown to do what one function says
  of each container alone, and what that function and the phase say is told from the runtime's records. Modules:
  `PodKiller`, `PodKillerObject`, `PodStatus`, `StatusConversion`, `StatusMeaning`.
- **scheduler cycle** (`pkg/scheduler/scheduler.go`). One loop and any number of binding goroutines over the cache, with
  arbitrary plugin outcomes; and scheduleOne as it is written, tied to that machine. Modules: `Scheduler`, `ScheduleOne`.
- **controller helpers** (`pkg/controller/controller_utils.go`). Deletion expectations over whole histories, and the pod
  deletion order. Modules: `Expectations`, `ExpectationsObject`, `PodOrder`.
- **registry credentials** (`pkg/credentialprovider`). The auth field's round trip through base64 (section 4 of
  RFC 4648), and the order in which the keyring tries credentials. Modules: `DockerAuth`, `Keyring`.

`Common` and `Ordering` hold what several models share: `Option`, names, visiting orders, Go's string order, and the
contract of `sort.Sort`. Classes keep the source's fields; their methods are proved against functions on values, and the
whole-history results are about those functions.

## Where the code and its comments differ

The model follows the code in each case.

- `pkg/kubelet/pod_workers.go:62-67` says a kill request is always delivered. A kill is refused while another is
  pending, and a pending one is dropped when its pod is forgotten; `PodWorkerHistory.KillLostIff` says that these are
  exactly the ways to lose one, and `PodWorkerHistory.ForgettingLosesAKill` is such a run.
- `pkg/proxy/service.go:317-319` says the stale cluster IPs are those no longer assigned to a service. The code goes by
  port name (`ServiceTable.StaleClusterIPsExact`); `ServiceTable.StaleIPsAsDocumentedIff` says exactly when the two
  differ, and `ServiceTable.MovedServiceIsNotReported` and `ServiceTable.DroppedPortIsReported` are histories for both.
- `pkg/proxy/endpoints.go:459-460` says the trigger times returned are those of the endpoints that were changed. Changes
  and times are taken under two separate locks. `ChangeTracking.TimesAsDocumentedIff` and
  `ChangeTracking.UnchangedIsReportedIff` say exactly when the promise holds, and `ChangeTracking.TimeIsReportedEarly` and
  `ChangeTracking.AppliedTimeIsLost` are histories in which it does not.
- `pkg/kubelet/kubelet_pods.go:1538-1546` forbids leaving a terminal phase, but an eviction returns earlier and can turn
  Succeeded into Failed (`StatusConversion.EvictionFailsSucceededPod`); `StatusConversion.TerminalPhaseIsFinal` says that
  this is the only change, once.
- `pkg/controller/controller_utils.go:860` says the higher deletion cost comes first; the code puts the lower first, as
  `PodOrder.LessIsLexicographic` has it.
- `pkg/controller/controller_utils.go:844-918` is handed to `sort.Sort`, which needs a strict weak order;
  `PodOrder.LessIsWeakOrderIff` says exactly for which settings it is one.

## Main results

The rest of the table below is the methods these results are about and the steps that lead to them.

- Pod workers: `PodWorkers.RunKeepsInv`, `PodWorkerHistory.AtMostOneSync`, `PodWorkerHistory.SyncsAreInOrder`,
  `PodWorkerHistory.EveryCallHasOneFate`, `PodWorkerHistory.PendingKillIsNext`, `PodWorkerHistory.KillLostIff`,
  `PodWorkerDrain.WorkersComeToRest`.
- Endpoint slices: `SliceHistory.SyncMatchesFreshBuild`, `SliceHistory.FreshBuildListsOffers`,
  `SliceHistory.ChangedIffNews`, `SliceAgreement.BuildsAgreeIff`, `StaleReports.StaleNamesExact`,
  `StaleReports.StaleEndpointsExact`, `StaleReports.AlwaysExactIff`.
- Services and Endpoints: `ObjectHistory.TableMatchesObjects`, `ChangeTracking.UpdatesCollapse`,
  `ChangeTracking.UpdatesInsideSync`, `ChangeTracking.TimesAsDocumentedIff`,
  `ChangeTracking.UnchangedIsReportedIff`, `ServiceTable.ApplyMatchesServices`, `ServiceTable.StaleClusterIPsExact`,
  `ServiceTable.StaleIPsAsDocumentedIff`, `StaleReports.SyncMatchesEndpoints`, `StaleReports.EndpointsReportsExact`.
- Pod killer and status: `PodKiller.MarkedExactlyOnce`, `PodKiller.NeverDeadlocks`, `PodKiller.MapsDrain`,
  `PodKiller.MarkedNames`, `StatusConversion.ConvertToAPIContainerStatuses`, `StatusMeaning.NewestRecordIsReported`,
  `PodStatus.GetPhase`, `StatusMeaning.ExitedPodPhase`, `StatusMeaning.NeverPodFailsIff`,
  `PodStatus.PendingIffTrackLost`, `StatusConversion.TerminalPhaseIsFinal`.
- Scheduler: `Scheduler.CacheHoldsLiveAttempts`, `Scheduler.EveryPopHasOneFate`, `Scheduler.FailureCleansUpOnce`,
  `Scheduler.NeverOvercommits`, `ScheduleOne.LogIsScheduleOne`.
- Controllers and credentials: `Expectations.SatisfiedIffAllObserved`, `PodOrder.LessWithScaling`,
  `PodOrder.LessIsWeakOrderIff`, `DockerAuth.AuthRoundTripIff`, `DockerAuth.DecodedIsEncoding`,
  `Keyring.SpecificCredentialsFirst`.

## Model

| member | source | states |
|---|---|---|
| PodWorkers.SendSucceeds | pkg/kubelet/pod_workers.go:207-213 | Whoever may send for a pod (the worker is not holding a token for it) finds the channel open, empty and with a live reader, so a buffer of one is enough. |
| PodWorkers.SendKeepsInv | pkg/kubelet/pod_workers.go:224-226 | Putting the pod's only token into its channel keeps the invariant: one token per pod over all generations of workers, and the isWorking flag set exactly while it is out. |
| PodWorkers.UpdatePodKeepsInv | pkg/kubelet/pod_workers.go:199-234 | UpdatePod keeps the token invariant, whether it starts a worker, sends, postpones, replaces or refuses. |
| PodWorkers.RemoveWorkerKeepsInv | pkg/kubelet/pod_workers.go:236-245 | Forgetting a worker keeps the invariant although isWorking is left alone and an update may be stranded in the closed channel. |
| PodWorkers.RemoveWorkersKeepsInv | pkg/kubelet/pod_workers.go:252-260 | So does forgetting any number of workers in any order. |
| PodWorkers.WorkerStepKeepsInv | pkg/kubelet/pod_workers.go:157-194 | Worker steps that keep the token or move it from buffer to hand keep the invariant. |
| PodWorkers.LettingGo | pkg/kubelet/pod_workers.go:262-287 | When a worker is about to check for updates, nobody else holds its pod's token and the flag still says it is out. |
| PodWorkers.CheckForUpdatesKeepsInv | pkg/kubelet/pod_workers.go:278-287 | checkForUpdates hands the pending update to the current generation's channel, or puts the flag down, and keeps the invariant. |
| PodWorkers.StepKeepsInv | pkg/kubelet/pod_workers.go:157-287 | Every step of every worker and caller keeps the invariant. |
| PodWorkers.RunKeepsInv | pkg/kubelet/pod_workers.go:157-287 | In every interleaving: no send ever blocks, panics or hits a missing channel, and the token invariant holds. |
| PodWorkerHistory.StepFollowsLedger | pkg/kubelet/pod_workers.go:157-287 | Refinement: each step of the concurrent machine is one entry, or none, of the pod's ledger: a call accepted, refused or superseding, a forget, a hand-over. |
| PodWorkerHistory.LedgerStepKeepsInv | pkg/kubelet/pod_workers.go:199-287 | Ledger entries conserve the calls and keep what was delivered a subsequence of what was issued. |
| PodWorkerHistory.RunKeepsLedgerInv | pkg/kubelet/pod_workers.go:157-287 | The ledger invariant holds in every reachable state. |
| PodWorkerHistory.UpdatePodLedger | pkg/kubelet/pod_workers.go:199-234 | What one UpdatePod call does to its pod's ledger, and that it touches no other pod's. |
| PodWorkerHistory.RemoveWorkersLedger | pkg/kubelet/pod_workers.go:236-260 | Forgetting drops exactly the pending updates of the pods forgotten. |
| PodWorkerHistory.CheckForUpdatesLedger | pkg/kubelet/pod_workers.go:278-287 | checkForUpdates delivers exactly the pending update of its own pod. |
| PodWorkerHistory.AtMostOneSync | pkg/kubelet/pod_workers.go:157-194 | No reachable state has two workers of one pod in syncPodFn, nor two workers holding one pod's update, across forgetting and recreation. |
| PodWorkerHistory.SyncsAreInOrder | pkg/kubelet/pod_workers.go:157-234 | Across all generations of worker, a pod's syncs are an in-order subsequence of the calls made for it. |
| PodWorkerHistory.ProcessedAreEnded | pkg/kubelet/pod_workers.go:157-204 | In any run the updates counted as synced are exactly those whose sync returned, and as given up those the pod cache failed for, in that order. |
| PodWorkerHistory.EveryCallHasOneFate | pkg/kubelet/pod_workers.go:157-287 | Conservation: each call is in exactly one of seven places: synced, failed to fetch, in flight, pending, superseded, refused, dropped. |
| PodWorkerHistory.PendingKillIsNext | pkg/kubelet/pod_workers.go:227-233 | While the pod is not forgotten, a pending kill is not overwritten: it still waits and nothing was delivered since, or it was the very next update delivered. |
| PodWorkerHistory.AcceptedKillFate | pkg/kubelet/pod_workers.go:199-287 | Over any run, a kill that was accepted is dropped if some step forgets the pod while the kill is its pending update, and otherwise stays delivered or pending. |
| PodWorkerHistory.KillLostIff | pkg/kubelet/pod_workers.go:199-245 | For a kill called in any reachable state and any run after it: the kill is refused or dropped exactly when another kill was pending at the call or a later step forgot the pod while this kill was pending; in every other case it is delivered or still pending. |
| PodWorkerHistory.WorkingPodCanStep | pkg/kubelet/pod_workers.go:157-194 | Whenever a pod is marked as working, some worker holds its token and can take its next step. |
| PodWorkerHistory.ForgettingLosesAKill | pkg/kubelet/pod_workers.go:236-245 | A concrete run in which a pending kill is dropped by forgetting the worker. |
| PodWorkerDrain.WorkerStepWorks | pkg/kubelet/pod_workers.go:157-287 | Every step a worker takes lowers the work left, handing over a pending update included. |
| PodWorkerDrain.WorkersComeToRest | pkg/kubelet/pod_workers.go:157-287 | From any reachable state without further calls there is a bound on the worker steps, whichever are taken; when none is left no pod is marked as working, nothing is pending, and every call was synced, given up for a cache error, superseded, refused or dropped, exactly one of these. |
| PodWorkerPool.UpdatePodMaySend | pkg/kubelet/pod_workers.go:203-226 | After the worker is ensured, the pod is being worked on or its channel is ready. |
| PodWorkerPool.CheckForUpdatesMaySend | pkg/kubelet/pod_workers.go:278-287 | When a worker wraps up, a pending update finds its channel ready. |
| PodWorkerPool.PodWorkerPool.constructor | pkg/kubelet/pod_workers.go:142-155 | A new pool is empty and valid. |
| PodWorkerPool.PodWorkerPool.UpdatePod | pkg/kubelet/pod_workers.go:199-234 | The object's UpdatePod is the machine's step, keeps the invariant, and never sends on a full or closed channel. |
| PodWorkerPool.PodWorkerPool.RemoveWorker | pkg/kubelet/pod_workers.go:236-245 | Removes the worker and its pending update as the machine's step does, and no other entry. |
| PodWorkerPool.PodWorkerPool.ForgetNonExistingPodWorkers | pkg/kubelet/pod_workers.go:252-260 | Forgets exactly the pods that are not desired, each once, in some order; the desired ones keep their workers. |
| PodWorkerPool.PodWorkerPool.CheckForUpdates | pkg/kubelet/pod_workers.go:278-287 | The object's checkForUpdates is the machine's. |
| PodWorkerPool.PodWorkerPool.FinishUpdate | pkg/kubelet/pod_workers.go:262-287 | A worker that wraps up takes exactly the machine's step and leaves the pool valid. |
| SliceBuild.WinnerIsOffered | pkg/proxy/endpointslicecache.go:262-302 | The endpoint kept for an IP is one that was offered for it, there is one exactly when some was, and it is local exactly when some was. |
| SliceBuild.WinnerIsFirstOrLastLocal | pkg/proxy/endpointslicecache.go:262-302 | In the order of the visits it is the last local offer of the IP if there is one, and otherwise the first offer. |
| SliceBuild.BuildKeepsEveryIP | pkg/proxy/endpointslicecache.go:233-302 | A build lists an IP under a port exactly when some record offers it, with an endpoint so offered, local exactly when some offer is: deduplication loses no IP and prefers local. |
| SliceBuild.BuildsHaveSamePorts | pkg/proxy/endpointslicecache.go:227-359 | Whatever the visiting orders, two builds of the same slices have the same service ports, all of the service and none with an empty list. |
| SliceBuild.OnePerIP | pkg/proxy/endpointslicecache.go:262-302 | A build lists one endpoint per IP and port. |
| SliceBuild.SortedListsAgree | pkg/proxy/endpointslicecache.go:340-359 | Two sorted endpoint lists with the same members are equal, so the sort leaves no choice. |
| SliceAgreement.WinnerIsDeciders | pkg/proxy/endpointslicecache.go:233-302 | Whatever the order, what is kept for an IP is the winner of a slice that decides it: one with a local winner, or any if no slice has one. |
| SliceAgreement.DeciderCanWin | pkg/proxy/endpointslicecache.go:233-302 | Conversely every such slice wins under some visiting order. |
| SliceAgreement.BuildOf | pkg/proxy/endpointslicecache.go:227-359 | Every visiting order has a build. |
| SliceAgreement.BuildsAgreeIff | pkg/proxy/endpointslicecache.go:227-359 | All builds give a port the same list exactly when, for every IP, the slices that could decide it would keep the same endpoint. |
| SliceHistory.UpdatePendingOverlay | pkg/proxy/endpointslicecache.go:167-190 | Whether or not an event counts as a change, applied overlaid with pending is afterwards the state with the latest event in it. |
| SliceHistory.ChangedIff | pkg/proxy/endpointslicecache.go:310-335 | An event counts as a change exactly when it brings a slice the service does not have in this form, removes one it has, or repeats a pending removal with other ports. |
| SliceHistory.ChangedIffNews | pkg/proxy/endpointslicecache.go:167-190 | The same over any history, in terms of the slices last received. |
| SliceHistory.ConcernsIff | pkg/proxy/endpointslicecache.go:371-380 | A slice is taken for a service exactly when its address type is IPv4 or IPv6, it has a name, and its namespace and its label, neither empty, name the service. |
| SliceHistory.OverlayIsReceived | pkg/proxy/endpointslicecache.go:167-224 | Applied overlaid with pending holds the stored form of exactly the slices last received and not removed. |
| SliceHistory.BuildReplaces | pkg/proxy/endpoints.go:462-492 | Unmerging a fresh build of the old slices and merging one of the new leaves exactly the latter, though the map held another build of the old ones. |
| SliceHistory.SyncedServiceIsBuild | pkg/proxy/endpoints.go:462-492 | After a sync the service's part of the map is a build of its slices, new if it had changes and untouched if not. |
| SliceHistory.SyncKeepsInv | pkg/proxy/endpointslicecache.go:194-224 | A sync keeps the invariant between slices received, cache and map, and leaves nothing pending. |
| SliceHistory.HistoryKeepsInv | pkg/proxy/endpointslicecache.go:167-224 | That invariant holds after every history. |
| SliceHistory.SyncMatchesFreshBuild | pkg/proxy/endpointslicecache.go:167-359 | Refinement: after any history ending in a sync, each service's part of the map is one a build from scratch over the slices last received can give. |
| SliceHistory.FreshBuildListsOffers | pkg/proxy/endpointslicecache.go:118-302 | That reference told from API objects: under each port exactly the IPs its slices offer there, one endpoint per IP and so offered (unset conditions count as ready, serving and not terminating), local exactly when some offer is, in a non-empty list sorted by string. |
| SliceRuns.SyncExists | pkg/proxy/endpointslicecache.go:194-224 | A sync can happen in every state, with any pair of builds as the change of a service. |
| SliceRuns.HistoryRuns | pkg/proxy/endpointslicecache.go:167-224 | Every history of slice events and syncs can happen, so the results over histories are about something. |
| SliceRuns.ContinuesKeeps | pkg/proxy/endpointslicecache.go:167-190 | Slice events change neither the map nor what is applied. |
| SliceCache.AddEndpointsByIP | pkg/proxy/endpointslicecache.go:262-302 | The in-place merge of one port's endpoints keeps, per IP, the winner of everything visited so far. |
| SliceCache.EndpointInfoByServicePort | pkg/proxy/endpointslicecache.go:233-259 | Visits every slice once in some order and groups the winners by service port. |
| SliceCache.SortedList | pkg/proxy/endpointslicecache.go:340-359 | A group becomes a strictly sorted list of exactly its endpoints. |
| SliceCache.EndpointsMapFromEndpointInfo | pkg/proxy/endpointslicecache.go:340-359 | The resulting map has exactly the visited ports, each with its sorted winners. |
| SliceCache.GetEndpointsMap | pkg/proxy/endpointslicecache.go:227-230 | Computes a build of the slices. |
| SliceCache.NewEndpointSliceInfo | pkg/proxy/endpointslicecache.go:118-159 | Stores permutations of the slice's ports, by increasing number, and of its converted endpoints, by joined addresses, and no endpoints for a removal. |
| SliceCache.ApplyPending | pkg/proxy/endpointslicecache.go:209-217 | Moving pending slices into applied, and deleting removed ones, gives the overlay. |
| SliceCache.CheckoutService | pkg/proxy/endpointslicecache.go:205-220 | The change of a service pairs a build of what was applied with one of what is applied now. |
| SliceCache.EndpointSliceCache.constructor | pkg/proxy/endpointslicecache.go:96-107 | A new cache tracks no service. |
| SliceCache.EndpointSliceCache.UpdatePending | pkg/proxy/endpointslicecache.go:167-190 | Records an accepted slice as pending exactly if it changes something, says whether it did, and ignores a slice without service label, namespace or name. |
| SliceCache.EndpointSliceCache.CheckoutChanges | pkg/proxy/endpointslicecache.go:194-224 | Returns one change for each service with pending slices and for no other, and applies all of them. |
| EndpointsTable.DetectStaleConnections | pkg/proxy/endpoints.go:519-550 | On fields: adds exactly the strings of UDP endpoints listed before of which no endpoint listed after has both the string and the locality, and the UDP ports that listed none and list some. |
| EndpointsTable.GetLocalReadyEndpointIPs | pkg/proxy/endpoints.go:495-515 | Has exactly the IPs of endpoints that some port of the service lists as ready and local, and no service without one. |
| EndpointsTable.EndpointsTable.Merge | pkg/proxy/endpoints.go:481-485 | Adds or replaces exactly the entries given. |
| EndpointsTable.EndpointsTable.Unmerge | pkg/proxy/endpoints.go:488-492 | Deletes exactly the keys given. |
| EndpointsTable.EndpointsTable.Apply | pkg/proxy/endpoints.go:462-478 | Applies the changes of all services, in whatever order, as if each had seen only its own ports, and reports what each makes stale. |
| EndpointsTable.EndpointsTable.Update | pkg/proxy/endpoints.go:370-387 | One call is one sync step of the history machine, with the stale connections of its changes, the number of local ready IPs per service, and the cached trigger times, all of services that the sync changed. |
| EndpointsTable.EndpointsTable.UpdateFromEndpoints | pkg/proxy/endpoints.go:370-387 | In Endpoints mode it patches the map with every pending change, leaves none pending, and returns the stale connections, the local ready counts and the cached trigger times. |
| StaleReports.SyncAtPort | pkg/proxy/endpoints.go:462-478 | After a sync a changed service's lists are its new build's, and it had endpoints before exactly where its previous build says. |
| StaleReports.StaleNamesExact | pkg/proxy/endpoints.go:537-549 | Over any history: the stale service names of a sync are exactly the UDP ports whose list in the map went from empty to non-empty. |
| StaleReports.StaleEndpointsExact | pkg/proxy/endpoints.go:519-536 | Over any history, on every port whose strings are settled among the applied slices: a sync reports exactly the strings of UDP endpoints that the map listed before and lists no longer, or with another locality. |
| StaleReports.UnsettledMisreports | pkg/proxy/endpoints.go:519-536 | From any reachable state with a UDP port that is not settled, slice events and a sync follow after which the sync reports an endpoint the map did not have. |
| StaleReports.AlwaysExactIff | pkg/proxy/endpoints.go:519-536 | From any reachable state, every sync after any slice events reports exactly what the map loses on a UDP port if and only if no two applied slices that could decide an IP disagree on its endpoint string. |
| StaleReports.RepeatedIPMisreports | pkg/proxy/endpoints.go:519-536 | A concrete history: two slices with one IP under two port numbers arrive and are synced, then go; the next sync can report an endpoint the map never had. |
| StaleReports.SyncMatchesEndpoints | pkg/proxy/endpoints.go:370-454 | In Endpoints mode, after any history ending in a sync: the map lists under a port one endpoint for every address of every subset of the service's object that serves the port, in the order of subsets, ports and addresses, and has no port that nothing serves. |
| StaleReports.EndpointsReportsExact | pkg/proxy/endpoints.go:519-550 | In Endpoints mode the stale endpoints and names of every sync are, on fields, exactly those the map lost and gained. |
| Patching.PatchOneMore | pkg/proxy/endpoints.go:462-492 | Changes of different objects commute: one more patch affects only its own object's ports. |
| Patching.PatchReplaces | pkg/proxy/endpoints.go:481-492 | Unmerging all of an object's ports and merging its new ones leaves exactly the new ones. |
| ChangeTracking.CheckoutKeepsInv | pkg/proxy/endpoints.go:290-307 | Applying the pending changes brings every object's part of the table to its latest state. |
| ChangeTracking.UpdateKeepsInv | pkg/proxy/endpoints.go:194-242 | An update keeps the pending change equal to the whole step from applied to latest state, dropping it and its times when the two are equal. |
| ChangeTracking.HistoryKeepsInv | pkg/proxy/endpoints.go:194-323 | That holds after every history of updates and syncs. |
| ChangeTracking.SyncMatchesLatest | pkg/proxy/endpoints.go:290-307 | After a checkout the table holds, for every object, exactly its latest state. |
| ChangeTracking.UpdatesCollapse | pkg/proxy/endpoints.go:194-242 | Any number of updates between two syncs is one change from applied to latest, or none when they cancel out, a nil and an empty map counting as different. |
| ChangeTracking.TimesTakenAreApplied | pkg/proxy/endpoints.go:310-323 | A sync that no update falls into reports times for an object only if it applied a change of it, and exactly those due. |
| ChangeTracking.UpdatesInsideSync | pkg/proxy/endpoints.go:462-478 | Whatever updates fall between the two halves of a sync: the table stays as checked out, they stay pending, and the times reported for an object are those due for what was applied, unless an update brought the object back to it, and then those of the updates that are not applied and that nothing took back. |
| ChangeTracking.UnchangedIsReportedIff | pkg/proxy/endpoints.go:459-478 | A sync that overlaps no other sync reports times for an object it did not change exactly when an update in between brought a time for another state and the object did not come back after it. |
| ChangeTracking.TimesAsDocumentedIff | pkg/proxy/endpoints.go:459-478 | The times returned for an object are those due for what was changed exactly when no update in between brought a time to stay; or, if one brought the object back, when the times brought since are the same ones. |
| ChangeTracking.TimeIsReportedEarly | pkg/proxy/endpoints.go:459-478 | A history for every object and time: a first sync changes nothing and reports the time of an update that falls into it. |
| ChangeTracking.AppliedTimeIsLost | pkg/proxy/endpoints.go:459-478 | A history for every object and time: a sync applies a change and, because of an update in between that changes nothing, does not report its time. |
| ChangeTracking.HistoryRuns | pkg/proxy/endpoints.go:194-323 | Every history of updates and syncs can happen. |
| ObjectHistory.TrackedLatest | pkg/proxy/service.go:280-310 | What the bookkeeping holds as the latest state of an object is the table of the version last seen. |
| ObjectHistory.TableMatchesObjects | pkg/proxy/service.go:280-393 | After any history of objects ending in a sync, the table is the union of the tables of the objects that exist. |
| EndpointTracker.EndpointsToEndpointsMap | pkg/proxy/endpoints.go:396-454 | Groups the usable addresses of an object by port, in order; a missing object gives a nil map. |
| EndpointTracker.ObjectMapOwn | pkg/proxy/endpoints.go:396-454 | An object has ports of its own service only. |
| EndpointListing.ObjectMapLists | pkg/proxy/endpoints.go:396-454 | Told from the Endpoints object alone: an object's map has exactly the ports that some address serves, each with the endpoint of every such address, in order and with every field given. |
| EndpointTracker.EndpointChangeTracker.Update | pkg/proxy/endpoints.go:194-242 | One event of the shared bookkeeping; deletions bring no time, and the result says whether anything is pending. |
| EndpointTracker.EndpointChangeTracker.CheckoutChanges | pkg/proxy/endpoints.go:290-307 | Returns every pending change once and leaves none. |
| EndpointTracker.EndpointChangeTracker.CheckoutTriggerTimes | pkg/proxy/endpoints.go:310-323 | Appends the cached times per object to those passed in and empties the cache. |
| EndpointTracker.EndpointSliceTracker.constructor | pkg/proxy/endpoints.go:170-186 | A new tracker has an empty cache and no times. |
| EndpointTracker.EndpointSliceTracker.EndpointSliceUpdate | pkg/proxy/endpoints.go:247-284 | Records the slice as the cache does, keeps its time exactly if it changed something and is no removal, and keeps times only for services with a pending slice. |
| ServiceTable.PortsMapDeclares | pkg/proxy/service.go:345-372 | A service maps exactly the ports it declares, with the port, node port and protocol of the last declaration of that name and protocol and the service's cluster IP and settings. |
| ServiceTable.ServiceToServiceMap | pkg/proxy/service.go:345-372 | A nil map exactly for a missing, skipped or IP-less service; else exactly its declared ports, each with the numbers of its last declaration. |
| ServiceTable.ServiceChangeTracker.Update | pkg/proxy/service.go:280-310 | One event of the shared bookkeeping; the result says whether anything is pending. |
| ServiceTable.ServiceTable.Merge | pkg/proxy/service.go:413-428 | Adds or replaces exactly the entries given. |
| ServiceTable.ServiceTable.Unmerge | pkg/proxy/service.go:442-455 | Deletes the ports given and collects the cluster IPs of those that were there and UDP. |
| ServiceTable.ServiceTable.ApplyChange | pkg/proxy/service.go:382-388 | Merging first and unmerging what filter leaves has the net effect of patching, and finds stale exactly the UDP ports that go. |
| ServiceTable.ServiceTable.Apply | pkg/proxy/service.go:377-393 | Applies all pending changes in whatever order, leaves none, and reports the stale IPs of each. |
| ServiceTable.ApplyMatchesServices | pkg/proxy/service.go:280-393 | After any history ending in an apply, told from the Service objects: the map has a port exactly if the latest service of that name exists, is not skipped, has a cluster IP and declares it, and the entry has the port, node port and protocol of the last such declaration and the service's cluster IP and settings. |
| ServiceTable.StaleClusterIPsExact | pkg/proxy/service.go:377-455 | The IPs reported are exactly those of UDP ports in the map before and not after. |
| ServiceTable.StaleIPsAsDocumentedIff | pkg/proxy/service.go:317-319 | The stale IPs are as documented except in two cases, told from the map and the services that exist before the call: an IP given up by services that keep all its UDP ports is missed, and an IP that loses a UDP port while some service keeps it is reported. |
| ServiceTable.MovedServiceIsNotReported | pkg/proxy/service.go:377-455 | A history for every service with a UDP port: it is created, synced and moved to another IP, and the next apply does not report the IP that is no longer assigned. |
| ServiceTable.DroppedPortIsReported | pkg/proxy/service.go:377-455 | A history for every service with a UDP port: it is created, synced and drops that port, and the next apply reports its IP although it is still assigned. |
| PodKiller.KillPodKeepsInv | pkg/kubelet/kubelet_pods.go:1235-1270 | KillPod keeps "marked means exactly one outstanding kill", whether it sends, blocks in the send or finds the pod marked. |
| PodKiller.InternalOutstanding | pkg/kubelet/kubelet_pods.go:1225-1293 | Internal steps move kills along without losing or doubling any; only unmarking ends one. |
| PodKiller.RunKeepsInv | pkg/kubelet/kubelet_pods.go:1225-1293 | The invariant holds in every reachable state. |
| PodKiller.MarkedExactlyOnce | pkg/kubelet/kubelet_pods.go:1225-1293 | In every run a pod is marked exactly while it has one kill blocked, queued or being carried out, and never has two; the mirror map adds no others. |
| PodKiller.MarkedNames | pkg/kubelet/kubelet_pods.go:1209-1271 | In every run a full name is in the map of running pods exactly while a kill of a running pod of that name is underway. |
| PodKiller.MirrorNames | pkg/kubelet/kubelet_pods.go:1235-1271 | A full name in the map of API pods is one that some call gave for that UID. |
| PodKiller.NeverDeadlocks | pkg/kubelet/kubelet_pods.go:1235-1293 | Although the lock is held over a send on a bounded channel, some internal step is possible whenever a pod is marked. |
| PodKiller.MapsDrain | pkg/kubelet/kubelet_pods.go:1225-1293 | With no new requests there is a bound on the steps left whichever are taken, and when none is left both maps are empty. |
| PodKiller.MismatchedPairLeavesAMark | pkg/kubelet/kubelet_pods.go:1225-1270 | An API pod with another UID than the running pod stays marked when the kill ends, and until a kill of its own UID is unmarked. |
| PodKillerObject.PodKillerWithChannel.KillPod | pkg/kubelet/kubelet_pods.go:1235-1270 | The object's KillPod is the machine's step and keeps its invariant. |
| PodKillerObject.PodKillerWithChannel.MarkPodTerminated | pkg/kubelet/kubelet_pods.go:1225-1231 | Unmarks the pod in both maps as the machine's last step does. |
| PodKillerObject.PodKillerWithChannel.IsPodPendingTerminationByUID | pkg/kubelet/kubelet_pods.go:1196-1206 | True exactly while the pod has an outstanding kill. |
| PodKillerObject.PodKillerWithChannel.IsPodPendingTerminationByPodName | pkg/kubelet/kubelet_pods.go:1209-1223 | True exactly when some marked pod has the name. |
| PodStatus.GetPhase | pkg/kubelet/kubelet_pods.go:1416-1515 | Each phase by the fields of the statuses and the policy alone: Failed, Succeeded and Running each exactly when, and Pending otherwise. So with all containers terminated Succeeded is policy not Always and every code 0, Failed policy Never and some code not 0. |
| PodStatus.PhaseOnFields | pkg/kubelet/kubelet_pods.go:1416-1515 | The same of the phase that the results over runs speak of. |
| PodStatus.CountKinds | pkg/kubelet/kubelet_pods.go:1448-1479 | What the five counters say about the containers. |
| PodStatus.KindOfRunningContainer | pkg/kubelet/kubelet_pods.go:1664-1896 | A container last reported running is reported running or stopped, unless the pod is not being deleted and all trace of it is lost. |
| PodStatus.PendingIffTrackLost | pkg/kubelet/kubelet_pods.go:1416-1896 | For a pod whose containers were all last reported running, the phase is Pending exactly when initialization is pending or, the pod not being deleted, some container's trace is lost, and no failed initialization makes it Failed. |
| PodStatus.DeletedPodNeverPending | pkg/kubelet/kubelet_pods.go:1416-1546 | Such a pod, once being deleted, does not go back to Pending whichever records vanish or become unknown, unless an init container is pending. |
| StatusConversion.OldStatuses | pkg/kubelet/kubelet_pods.go:1723-1727 | Indexes the previous statuses by name, a later one replacing an earlier. |
| StatusConversion.DefaultStatuses | pkg/kubelet/kubelet_pods.go:1729-1755 | The first pass gives every container its default or its kept terminated status. |
| StatusConversion.InferTerminations | pkg/kubelet/kubelet_pods.go:1757-1819 | The second pass gives a termination to exactly the running containers of a pod being deleted that have no record left. |
| StatusConversion.ApplyRecords | pkg/kubelet/kubelet_pods.go:1823-1845 | The third pass takes the state from each container's newest record and the last state from the one before, ignoring the rest. |
| StatusConversion.ShowStartFailures | pkg/kubelet/kubelet_pods.go:1847-1882 | The fourth pass shows a container that is to be restarted and failed to start as waiting, keeping its termination as last state. |
| StatusConversion.ListStatuses | pkg/kubelet/kubelet_pods.go:1884-1896 | The list has exactly the statuses of the map: init statuses one per container in spec order, the others once each by strictly increasing name. |
| StatusConversion.ConvertToAPIContainerStatuses | pkg/kubelet/kubelet_pods.go:1664-1896 | The passes together report each container from what is known of it alone, and nothing else, from the records newest first; `StatusMeaning` says what that is. |
| StatusConversion.GeneratePhase | pkg/kubelet/kubelet_pods.go:1519-1546 | Returns statuses that report every container and init container from what is known of it alone, in order; the phase is Failed for an evicted pod, else the terminal phase last reported, else the phase of those statuses. |
| StatusConversion.DeletedPodStaysOut | pkg/kubelet/kubelet_pods.go:1519-1546 | With all containers last reported running, a pod being deleted is reported Pending only if an init container is pending. |
| StatusConversion.TerminalPhaseIsFinal | pkg/kubelet/kubelet_pods.go:1519-1546 | Over any run of calls, each fed the phase the one before reported, with arbitrary records, failures and evictions: a terminal phase is kept, except that from the first eviction on Succeeded becomes Failed. |
| StatusConversion.EvictionFailsSucceededPod | pkg/kubelet/kubelet_pods.go:1524-1532 | That exception at an input: a pod reported Succeeded and then evicted is reported Failed. |
| StatusMeaning.NewestRecordIsReported | pkg/kubelet/kubelet_pods.go:1665-1721 | About the list, from records alone: an exited or created newest record gives a termination with its 32-bit exit code, reason, message, times and ID, a running one its start time, an unknown one after running code 137 and one restart more; the second newest gives the last state; a start failure shown gives its error and keeps the termination as last state. |
| StatusMeaning.ReportedWithoutRecord | pkg/kubelet/kubelet_pods.go:1729-1819 | A container without records keeps an old termination; else it waits as default with the old restart count and last state, and if it ran in a pod being deleted is given a termination with code 137. |
| StatusMeaning.ReportedFromSecond | pkg/kubelet/kubelet_pods.go:1823-1845 | The last state is what the second newest record tells, and empty where there is none. |
| StatusMeaning.ShownIffStartFailure | pkg/kubelet/kubelet_pods.go:1847-1882 | A start failure is shown exactly for a container that the policy has started again and the reason cache knows, not in a pod being deleted nor for an init container that succeeded. |
| StatusMeaning.LookupIsFirst | pkg/kubelet/kubelet_pods.go:1416-1470 | Of several statuses of one name in a list the first counts. |
| StatusMeaning.OldStatusIsLast | pkg/kubelet/kubelet_pods.go:1723-1727 | Of several statuses reported before under one name the last counts. |
| StatusMeaning.LastNamedIsLast | pkg/kubelet/kubelet_pods.go:1736-1755 | Of several containers of one name in a spec the last counts. |
| StatusMeaning.ExitedPodPhase | pkg/kubelet/kubelet_pods.go:1416-1546 | From records to phase: a pod without init containers whose containers' newest records are all exits is Running under Always, else Succeeded, unless some code is not zero: then Failed under Never and Running under OnFailure. |
| StatusMeaning.NeverPodFailsIff | pkg/kubelet/kubelet_pods.go:1416-1546 | Such a pod under Never is Failed exactly when some container's newest record has a non-zero code, in the 32 bits kept of it, and Succeeded exactly when none has; of records created at one instant it is taken that they do not disagree. |
| Scheduler.StepKeepsCacheInv | pkg/scheduler/scheduler.go:441-614 | Every step of the loop and of any binding goroutine keeps the cache equal to the attempts that were assumed and not forgotten. |
| Scheduler.CacheHoldsLiveAttempts | pkg/scheduler/scheduler.go:441-614 | In every run the cache holds exactly the pods of live attempts, each on the node chosen by its one live attempt. |
| Scheduler.NeverBoundTwice | pkg/scheduler/scheduler.go:504-614 | No pod is bound by two attempts. |
| Scheduler.FailureCleansUpOnce | pkg/scheduler/scheduler.go:521-614 | Whichever of the five calls after assume fails, each in its own block, no further call on the way follows: unreserve, forget and report are made once each and in that order. Until forget is called the cache has the pod on the attempt's node; after that, any entry for the pod is the work of another live attempt. |
| Scheduler.LoadWithout | pkg/scheduler/scheduler.go:373-390 | The load of a node does not depend on the order the cached pods are summed in. |
| Scheduler.NeverOvercommits | pkg/scheduler/scheduler.go:440-519 | If each pick has room in the cache at that moment, no node is ever overcommitted, though cycles fail and forget between pick and assume. |
| Scheduler.EveryPopHasOneFate | pkg/scheduler/scheduler.go:441-614 | Every pod popped is the pod of its attempt, and an ended attempt has exactly one fate by the calls made for it: skipped with none, reported once without being assumed, assumed once and cleaned up, or assumed once and bound. |
| Scheduler.SchedulingIsSerial | pkg/scheduler/scheduler.go:440-553 | Whatever binding goroutines run beside it, all calls the loop makes for one pod come before its calls for any pod popped later. |
| ScheduleOne.ScheduleOne | pkg/scheduler/scheduler.go:441-551 | The loop part as written, on the outcome fields: it starts the binding goroutine exactly when the checks, Schedule, Assume and Reserve succeed and Permit succeeds or has the pod wait; its calls are listed for every first failure, and are those the step machine makes for the same outcomes. |
| ScheduleOne.BindingCycle | pkg/scheduler/scheduler.go:554-613 | The binding goroutine as written, on the outcome fields: it ends with PostBind exactly when WaitOnPermit, PreBind and Bind succeed, and else cleans up after the first of them that fails; its calls are those of the step machine and a complete fate. |
| ScheduleOne.MoveArrives | pkg/scheduler/scheduler.go:441-613 | Each move of the step machine with the outcome seen adds the call of its place and leads to the place those outcomes pass next; the step of the induction behind LogIsScheduleOne. |
| ScheduleOne.OneEnd | pkg/scheduler/scheduler.go:441-613 | The outcomes determine where an attempt ends. |
| ScheduleOne.BoundIffAllSucceed | pkg/scheduler/scheduler.go:441-613 | An attempt ends bound exactly when every check passes and every call before PostBind succeeds. |
| ScheduleOne.SeesOutcomes | pkg/scheduler/scheduler.go:441-613 | Whatever an attempt has seen so far, outcomes that agree with it fit all that it sees in the rest of the run. |
| ScheduleOne.LogIsScheduleOne | pkg/scheduler/scheduler.go:441-613 | For every run and attempt there are outcomes that every step of the attempt in the run sees, the node picked included, and the calls logged for it are those that scheduleOne makes for these outcomes as far as it has come; an ended attempt is where they end, and called PostBind exactly when all of them succeed. |
| Expectations.UidsAreOutstanding | pkg/controller/controller_utils.go:338-369 | After any history the UIDs tracked are those last expected minus those seen deleted since. |
| Expectations.CountersAreExact | pkg/controller/controller_utils.go:221-284 | After any history the counters equal what is still awaited: as many deletions as UIDs left, or the creations not yet seen. |
| Expectations.SatisfiedIffAllObserved | pkg/controller/controller_utils.go:186-211 | Whatever the order and duplicates, an expectation is satisfied exactly when it has expired, nothing is expected, all UIDs last expected were seen deleted, or all creations expected since were seen. |
| Expectations.CreationsClobberDeletions | pkg/controller/controller_utils.go:221-234 | Expecting creations overwrites the deletion count and keeps the UIDs, so a wait for deletions can end early. |
| ExpectationsObject.UIDTrackingControllerExpectations.ExpectDeletions | pkg/controller/controller_utils.go:338-354 | Sets the count to the number of distinct UIDs and tracks them. |
| ExpectationsObject.UIDTrackingControllerExpectations.DeletionObserved | pkg/controller/controller_utils.go:357-369 | Lowers the count exactly for a UID still tracked. |
| ExpectationsObject.UIDTrackingControllerExpectations.SatisfiedExpectations | pkg/controller/controller_utils.go:186-211 | Answers as the specification does, a missing expectation counting as satisfied. |
| ExpectationsObject.UIDTrackingControllerExpectations.DeleteExpectations | pkg/controller/controller_utils.go:371-381 | Drops counters and UIDs of the key only. |
| PodOrder.LessIsLexicographic | pkg/controller/controller_utils.go:844-918 | Without logarithmic scaling the eight rules are one lexicographic comparison of keys made of the pods' fields: pending and finished phases before unknown before running, lower deletion cost and higher rank first. |
| PodOrder.LessWithScaling | pkg/controller/controller_utils.go:844-943 | With it the first difference of the keys decides as before, except that two ready or creation times go by which age a power of two shows to be younger, and else by UID. |
| PodOrder.YoungerIffLowerRank | pkg/controller/controller_utils.go:931-943 | One logarithmic rank is lower than another exactly when some power of two lies between the ages. |
| PodOrder.ReadyByFirstCondition | pkg/controller/controller_utils.go:945-955 | The first condition of type PodReady decides whether a pod is ready and since when. |
| PodOrder.NotReadyWithoutCondition | pkg/controller/controller_utils.go:945-955 | A pod without such a condition is not ready and has no ready time. |
| PodOrder.LessIsWeakOrder | pkg/controller/controller_utils.go:844-918 | So Less is then a transitive strict weak order on all pods, zero times included. |
| PodOrder.LessIsAsymmetric | pkg/controller/controller_utils.go:844-918 | With any settings no two pods are each before the other. |
| PodOrder.EqualRanksMakeACycle | pkg/controller/controller_utils.go:880-897 | With logarithmic scaling any two distinct times of equal rank give three pods in a cycle. |
| PodOrder.LessIsWeakOrderIff | pkg/controller/controller_utils.go:844-943 | Less is a strict weak order exactly when LogarithmicScaleDown is off or there is no reference time. |
| PodOrder.PodReadyTime | pkg/controller/controller_utils.go:945-955 | The loop finds the transition time of the condition IsPodReady looked at. |
| PodOrder.MaxRestartsIsLargest | pkg/controller/controller_utils.go:957-963 | The count is the largest of any container, and 0 for none. |
| PodOrder.MaxContainerRestarts | pkg/controller/controller_utils.go:957-963 | The loop computes it. |
| PodOrder.Swap | pkg/controller/controller_utils.go:837-840 | Swapping in both arrays exchanges the two pods and the two ranks, leaves all others, and so swaps the pairs. |
| PodOrder.SwapsKeepPairs | pkg/controller/controller_utils.go:837-840 | However a sort swaps, every rank stays with its pod. |
| DockerAuth.DecodeEncode | pkg/credentialprovider/config.go:295-329 | Base64 decoding undoes encoding on all byte strings, padded or not. |
| DockerAuth.DecodedIsEncoding | pkg/credentialprovider/config.go:295-311 | The converse: whatever decodes is the encoding of what it decodes to, but for bits of the last character that no byte uses; all else is refused. |
| DockerAuth.StandardAlphabet | pkg/credentialprovider/config.go:325-329 | The alphabet is that of section 4 of RFC 4648. |
| DockerAuth.EncodeKeepsBits | pkg/credentialprovider/config.go:325-329 | Every four characters hold the 24 bits of their three bytes, most significant first and zero after the end. |
| DockerAuth.EncodeLength | pkg/credentialprovider/config.go:325-329 | An encoding has as many characters as the bits take and then, if padded, the "=" to a multiple of four. |
| DockerAuth.BreaksAreIgnored | pkg/credentialprovider/config.go:301-307 | A line break anywhere in a field does not change what it decodes to. |
| DockerAuth.LooksPaddedIff | pkg/credentialprovider/config.go:301-307 | The padded decoder is taken exactly for a field whose last byte that is not white space is "=". |
| DockerAuth.DecodeEitherForm | pkg/credentialprovider/config.go:295-311 | The decoder chosen by the last character is the right one for either form. |
| DockerAuth.SplitFirstColon | pkg/credentialprovider/config.go:313-322 | The split takes the first colon, so a username never has one. |
| DockerAuth.SplitIff | pkg/credentialprovider/config.go:313-322 | A text without a colon is refused; of any other nothing is lost in the split. |
| DockerAuth.AuthRoundTripIff | pkg/credentialprovider/config.go:295-329 | Decoding an encoded field gives back the credentials exactly when the username has no colon. |
| Keyring.SpecificFirst | pkg/credentialprovider/keyring.go:118-125 | In the reverse-sorted index a key comes before every proper prefix of it. |
| Keyring.KeyOfIff | pkg/credentialprovider/keyring.go:88-113 | The key of a location is its host and its path without a leading API version, a path that is then empty or a slash left out, and https assumed where no scheme is given. |
| Keyring.AddedCreds | pkg/credentialprovider/keyring.go:76-116 | Adding keeps the credentials of every key, in front, and adds exactly those of the entries whose locations have the key. |
| Keyring.BareImageMatches | pkg/credentialprovider/keyring.go:136-159 | An image without a slash is one of the default registry. |
| Keyring.DefaultRegistryIff | pkg/credentialprovider/keyring.go:136-159 | An image with one is exactly if what comes before the first slash is docker.io or index.docker.io, or is not empty and has neither dot nor colon. |
| Keyring.CollectedIsComplete | pkg/credentialprovider/keyring.go:237-250 | A lookup collects a credential exactly when a matching key has it. |
| Keyring.SpecificCredentialsFirst | pkg/credentialprovider/keyring.go:237-250 | Of two matching keys, one a prefix of the other, all credentials of the longer come before those of the shorter. |
| Keyring.DescendingList | pkg/credentialprovider/keyring.go:118-125 | The index becomes the duplicate-free list of keys in descending order. |
| Keyring.BasicDockerKeyring.Add | pkg/credentialprovider/keyring.go:76-126 | Keeps what every key had and adds exactly the entries whose locations are filed under it, in the order visited, and leaves an index of exactly the keys with credentials. |
| Keyring.BasicDockerKeyring.Lookup | pkg/credentialprovider/keyring.go:237-260 | Returns the credentials of all matching keys in index order, else the default registry's if appropriate, else none. |
| Ordering.PrefixIsLess | pkg/credentialprovider/keyring.go:121-125 | A proper prefix sorts before every string it is a prefix of. |
| Ordering.StringLessIff | pkg/credentialprovider/keyring.go:121-125 | One string is less than another exactly when it is a proper prefix or has the smaller character at the first difference. |

## Left out

- ChangeTracking.SyncMatchesLatest: assumes, as the informers provide, that each update starts from the version last seen of the same object; the same holds for the other results over `Chained` histories.
- Scheduler.NeverOvercommits: one resource, and it takes from the scheduling algorithm that the node picked has room in the cache at that moment; pods added, removed or expired by informers, nominated pods and preemption are not modelled.
- PodOrder.LessIsWeakOrderIff: the logarithmic rank is the exact floor of the base-2 logarithm, without the rounding of float64.
- Expectations.SatisfiedIffAllObserved: timestamps enter only as whether an expectation has expired; `SetExpectations`, `RaiseExpectations`, other uses of `LowerExpectations` and 64-bit wrap-around of the counters are not modelled.
- SliceCache.NewEndpointSliceInfo: a slice with several ports of which one has no number is a precondition failure, where Go would dereference nil in the sort; a nil protocol is excluded by the type.
- DockerAuth.AuthRoundTripIff: white space trimmed before the padding test is ASCII white space; `strings.TrimSpace` also trims Unicode spaces.
- Keyring.BasicDockerKeyring.Lookup: URL parsing and glob matching are parameters.
- PodKillerObject.PodKillerWithChannel.KillPod: that both callers pass a running pod, and an API pod only with the same UID, is a hypothesis of the run results; `PodKiller.MismatchedPairLeavesAMark` shows what happens without it.
- Address parsing, joining host and port, and taking the IP part of an endpoint string are parameters of the proxy models.
- `makeEndpointInfo`, `makeServiceInfo` and the `process...MapChange` callbacks are taken as absent; the fields every port of a service copies are one opaque value, and its cluster IP is taken in canonical form.
- Health-check node ports, metrics, events and logging.
- Topology filtering and the proxiers that turn the maps into iptables or IPVS rules.
- Pod workers: the pod cache's contents, back-off and resync durations, `OnCompleteFunc` and a crashing sync function; a sync or a cache read returns with some outcome.
- Pod killer: `Close`, and a kill that never returns.
- Pod status: conditions, IPs, quality of service, ephemeral containers, readiness, and the reasons for waiting other than those that decide the phase.
- The scheduler cache's own bookkeeping beyond assume and forget, plugin internals, and queue back-off.
- The other keyrings and the readers of docker config files.
- `sort.Sort` is represented by its contract: some sorted permutation; where the code's results depend on which, the model is a relation.
