# kubefwd, modelled and proved in Dafny

kubefwd forwards every service of a Kubernetes namespace to a loopback address of its own. This project models the
stateful components under its cluster and terminal code and proves what they keep over every run.

- **The life of a forward** (`ForwardProtocol.dfy`, `ForwardProgress.dfy`, `PodPorts.dfy`, `PodReconciler.dfy`,
  `ReconnectBackoff.dfy`). A service keeps a map of
  port-forwards that syncs, rebuilds, forced reconnects, removals and the forwards' own goroutines edit concurrently.
  `ForwardProtocol` makes every critical section, channel close and cleanup action one step and proves what all
  interleavings of any number of forwards and calls keep; `ForwardProgress` proves that forwards, rebuilds and removals
  end. `PodReconciler` is the sync itself, as classes with updated
  fields, proved to converge. `ReconnectBackoff` is the backoff and its single-flight flag.
- **The address allocator** (`FwdIp.dfy`, `FwdIpTexts.dfy`, `FwdIpProperties.dfy`, `FwdIpAnswers.dfy`, `FwdIpReservations.dfy`, `FwdIpReservationRuns.dfy`,
  `FwdIpSimple.dfy`, `FwdNs.dfy`, `FwdOrdinals.dfy`, `FwdAddresses.dfy`).
  A registry class with wrapping byte arithmetic, reservations and a retry, refining a function over registry states;
  over every run it is proved one address per registry key, complete before it reports exhaustion, respectful of
  reservations, and, without reservations, equal to a closed formula. `FwdOrdinals` interleaves the calls that assign the
  cluster and namespace ordinals, and `FwdAddresses` says which addresses they reach through the allocator.
- **The state store** (`StateStore.dfy`, `StateStoreProperties.dfy`, `EventKeys.dfy`, `StoreEvents.dfy`,
  `StoreEffects.dfy`). Forwards, the per-service aggregates
  that must agree with them, the summary, and the block-list that keeps removed namespaces from coming back.
- **Rings and lines** (`RingBuffers.dfy`, `RateCalculator.dfy`, `LogLines.dfy`). Four rings, each proved to hold the tail
  of what was recorded; the rates read from one of them; and the log line splitter.

`Text.dfy` has the Go string operations the code calls and `ForwardMap.dfy` the two guarded map edits that the
interleaving model and the reconciler share. Strings are sequences of characters. Go's `range` over a map becomes a loop
that picks keys in any order, so every result holds for every order.

## Where the code does less than its documentation or its comments say

- The repository's README.md:59 promises one address per service. The registry key joins service and pod with a dash, so the services
  `web` (pod `cache-0`) and `web-cache` (pod `0`) of one namespace are given one address
  (`FwdIpSimple.DistinctServicesCanShare`). `FwdIpProperties.OneAddressPerKey` says exactly when two requests share.
- Reservations are compared as strings, while addresses are parsed by a parser that accepts leading zeros and signs. A
  reservation `127.1.27.01` passes validation, and the first service forwarded is answered that very address
  (`FwdIpReservationRuns.LeadingZeroAnswered`). `FwdIpReservationRuns.DisregardedIff` says, for every configuration, exactly
  which reservations some run disregards; when no dotted entry follows another of its name, all are respected exactly when
  each is written, or repeated under its name, in dotted form (`FwdIpReservationRuns.ReservationsRespectedIff`).
- The API address 127.2.27.1 is chosen to stay clear of services (pkg/fwdapi/manager.go:30-32). `CreateServiceFWD` takes
  its two ordinals under two separate locks. A run of two such calls, or of one and a `StartWatcher`, gives a service the
  API address (`FwdAddresses.InterleavedCallsReachApi`, `FwdAddresses.InterleavedWatcherReachesApi`). It can happen in an
  interleaving exactly when the first namespace key is indexed for the context that was indexed second
  (`FwdAddresses.ApiAddressAnsweredIff`); under one lock it never does (`FwdAddresses.OneLockAvoidsApi`).
- `RemoveServicePod` deletes by key without checking whose entry it is, so it can unregister a replacement. The deletion is
  harmless exactly when the entry it would drop has its stop or done channel closed
  (`ForwardProtocol.DeletePodKeepsOpenIff`), and no run goes wrong in which nothing registers under the key between
  look-up and deletion (`ForwardProtocol.LiveForwardsAreRegistered`); any run about to delete can be continued into one
  that does go wrong (`ForwardProtocol.RemovalCanUnregister`).
- `ForceReconnect` does not wait for the forwards it stops, and `UpdateService` gives up waiting after a time-out. In both
  cases an old forward's hosts can be removed after its replacement under the same key, registered and running, added its
  own (`ForwardProtocol.ForceReconnectCanCleanLate`, `ForwardProtocol.UpdateTimeoutCanCleanLate`). All continuations of a call keep
  the order exactly when, at its resync, nothing it stopped could still clean (`ForwardProtocol.ResyncKeepsOrderIff`),
  which closed DoneChans ensure (`ForwardProtocol.DoneKeepsOrder`).
- `ForceReconnect` also clears the single-flight flag while an older timer may be running
  (`ReconnectBackoff.BoundIsReached`); `ReconnectBackoff.SingleFlightIff` gives the exact condition.
- On the TUI's own store a `ServiceRemoved` event removes only those forwards that pass the display filter
  (pkg/fwdtui/ui.go:1157-1165, `StoreEvents.FilteredForwardSurvives`). The standalone store has no filter and is not
  affected (`StoreEvents.ServiceRemovedUnfiltered`).
- The dotted keys of events do not always tell forwards or services apart, because pod names and contexts may have dots
  too. `StoreEvents.DottedPodCollides` and `StoreEvents.HeadlessServiceCollides` are events after which a service's
  aggregate disagrees with the forwards. Agreement holds over all runs exactly when the keys do tell the forwards apart
  (`StateStoreProperties.AgreementIff`), that is, where keys collide, when pods and services have names with as many dots.

## Model

| member | source | states |
|---|---|---|
| ForwardProtocol.LiveForwardsAreRegistered | pkg/fwdservice/fwdservice.go:735-866 | In every interleaving in which nothing registers under the key of a RemoveServicePod between its look-up and its deletion, each live forward that nobody asked to stop is the one registered under its own key, and so is each with open channels; hence at most one per key |
| ForwardProtocol.EntriesLeaveOnlyBy | pkg/fwdservice/fwdservice.go:311-345 | From any reachable-invariant state and by any step, an entry is never replaced and leaves only by its own forward's exit, by stopAllPortForwards, or by a RemoveServicePod of its key: an exit never unregisters a replacement |
| ForwardProtocol.DeletePodKeepsOpenIff | pkg/fwdservice/fwdservice.go:850-866 | The unchecked delete at the end of RemoveServicePod keeps every forward with open channels registered exactly when the forward now under the key, if any, has its stop or done channel closed |
| ForwardProtocol.SameEntryIsSafe | pkg/fwdservice/fwdservice.go:799-801 | The identity guard that removeOwnForward has would make the delete safe |
| ForwardProtocol.RemovalCanUnregister | pkg/fwdservice/fwdservice.go:862-866 | From any run about to delete the entry it found, or a key without entry, a continuation registers a wanted forward in between and the delete unregisters it |
| ForwardProtocol.RemoveServicePodCanUnregisterReplacement | pkg/fwdservice/fwdservice.go:862-866 | Such a run from the start: a forward exits and is replaced between the wait and the delete |
| ForwardProtocol.DoneMeansCleaned | pkg/fwdport/fwdport.go:407-580 | In every interleaving, once DoneChan is closed on a forward whose AddHosts succeeded, its cleanup goroutine has finished and its hosts and alias are gone, however ForwardPorts returned |
| ForwardProtocol.SettledCleansBeforeRebuild | pkg/fwdservice/fwdservice.go:247-345 | In every interleaving, for a call of any kind whose resync began once nothing it had stopped could still clean, every cleanup of a forward it stopped precedes every set-up of a forward spawned by its resync, and none is still to come |
| ForwardProtocol.UpdateCleansBeforeRebuild | pkg/fwdservice/fwdservice.go:272-309 | An UpdateService call none of whose waits timed out is such a call, and every forward it stopped is done |
| ForwardProtocol.ResyncKeepsOrderIff | pkg/fwdservice/fwdservice.go:247-308 | For a call about to resync, all continuations keep its cleanups before its set-ups exactly when none of the forwards it stopped may still clean |
| ForwardProtocol.DoneKeepsOrder | pkg/fwdservice/fwdservice.go:288-295 | Waiting until every DoneChan of the forwards it stopped is closed is enough for that |
| ForwardProtocol.LateCleanup | pkg/fwdservice/fwdservice.go:247-308 | Otherwise, for any key without entry, a continuation registers and runs a forward of that key for the resync, adds its hosts, and after that cleans up the old forward: its hosts if they were still there, else its alias |
| ForwardProtocol.ForceReconnectCanCleanLate | pkg/fwdservice/fwdservice.go:247-279 | A run in which the hosts of a forward stopped by ForceReconnect are removed after its replacement under the same key, registered and running, added its own |
| ForwardProtocol.UpdateTimeoutCanCleanLate | pkg/fwdservice/fwdservice.go:272-308 | Likewise for a forward stopped by an UpdateService whose wait for it timed out |
| ForwardProtocol.StepInv | pkg/fwdport/fwdport.go:407-459 | Every step keeps the relation between a forward's goroutine, its cleanup goroutine, its channels and the log, what calls and removals know of the forwards they stop, and that each entry is an active forward under its own key |
| ForwardProtocol.RunInv | pkg/fwdservice/fwdservice.go:735-745 | Both invariants hold after every sequence of enabled steps |
| ForwardProgress.GiveUpEnds | pkg/fwdport/fwdport.go:461-572 | From every reachable state a forward whose pod never runs, whose dialer cannot be made or whose connection breaks can end by its own and its cleanup goroutine's steps alone: it stops itself and exits, its hosts and alias are removed and its key is not mapped to it |
| ForwardProgress.EndsByItself | pkg/fwdport/fwdport.go:407-580 | Likewise, from every reachable state, a live forward that was told to stop, except that one which failed before adding hosts has none to remove |
| ForwardProgress.AskedEnds | pkg/fwdservice/fwdservice.go:311-330 | Likewise a live forward someone asked to stop, after the Stop of the call that still holds it in its list, if there is one |
| ForwardProgress.NotStuck | pkg/fwdport/fwdport.go:445-580 | A live forward that was told to stop always has a step of its own to take |
| ForwardProgress.RankFalls | pkg/fwdport/fwdport.go:407-580 | Each step of its own brings a forward nearer to its end, so every schedule of them is finite, and touches no other forward, call or removal |
| ForwardProgress.ReturnWaitsForStop | pkg/fwdport/fwdport.go:549-579 | When ForwardPorts returns without an error the forward does not stop itself: unless told to stop it can take no further step of its own |
| ForwardProgress.DrainingGoesOnIff | pkg/fwdport/fwdport.go:575-580 | A forward waiting for its cleanup can go on by itself exactly when its stop channel is closed |
| ForwardProgress.ChannelsCloseOnce | pkg/fwdport/fwdport.go:862-873 | No step closes a channel twice, or the stop channel after the done channel |
| ForwardProgress.StopCloses | pkg/fwdport/fwdport.go:862-873 | Whoever is told to stop has its stop channel closed, unless it is done |
| ForwardProgress.OthersMayAct | pkg/fwdservice/fwdservice.go:735-838 | Spawning for a key without entry, stopping from outside, beginning a rebuild or a removal, and registering are possible in every state; registering succeeds exactly when the key has no entry |
| ForwardProgress.CallEnds | pkg/fwdservice/fwdservice.go:272-345 | From every reachable state an UpdateService or ForceReconnect call can get to its resync, without a time-out if it has had none; an UpdateService then resyncs with everything it stopped done |
| ForwardProgress.RemovalEnds | pkg/fwdservice/fwdservice.go:850-866 | From every reachable state a RemoveServicePod that found an entry can get to its deletion, with the forward it found done and its key gone |
| PodReconciler.NormalServiceConverges | pkg/fwdservice/fwdservice.go:495-578 | After a sync a normal service holds exactly one eligible pod's forwardable ports, exactly when its old entries for that pod came from the current ports; a forwarded eligible pod is chosen if there is one, else the first, and all forwards of the chosen pod stay the same objects; a second sync changes nothing |
| PodReconciler.NormalKeyTexts | pkg/fwdservice/fwdservice.go:676-682 | Its entries are there under the text "service.pod.port" |
| PodReconciler.HeadlessServiceConverges | pkg/fwdservice/fwdservice.go:455-493 | After a sync only entries of eligible pods remain, all earlier ones of those the same objects; every eligible pod's ports are there under "pod.service" and the first pod's under the bare name, and no other key exactly when the kept entries came from the current ports; a second sync changes nothing |
| PodReconciler.HeadlessKeyTexts | pkg/fwdservice/fwdservice.go:631-678 | Its entries are there under "service.pod.port" for the first pod and "pod.service.pod.port" for each |
| PodReconciler.ServiceFWD.Reconcile | pkg/fwdservice/fwdservice.go:538-578 | A sync and the registration of what it spawned take the map to one that NormalSync or HeadlessSync describes, leave kept forwards untouched, and add only new objects; nothing changes when no pod is eligible, and once one is, no entry is left of a pod that is being deleted, over or not ready |
| PodReconciler.ServiceFWD.DoSyncPods | pkg/fwdservice/fwdservice.go:538-578 | The map after a sync is the old one restricted to the kept pods, the kept forwards are unchanged objects, and the spawned ones are exactly for the ports without entry |
| PodReconciler.ServiceFWD.SyncNormalService | pkg/fwdservice/fwdservice.go:511-536 | The pod is one already forwarded if any eligible one is, else the first; only its entries stay; its missing ports are spawned |
| PodReconciler.ServiceFWD.SyncHeadlessService | pkg/fwdservice/fwdservice.go:490-493 | Spawned are the missing bare-name ports of the first pod and the missing prefixed ports of every pod |
| PodReconciler.ServiceFWD.RemoveAllBut | pkg/fwdservice/fwdservice.go:444-463 | Exactly the entries of the pods to keep stay, as unchanged objects; every removed forward was stopped and is done |
| PodReconciler.ServiceFWD.FindPodNameToKeep | pkg/fwdservice/fwdservice.go:479-487 | Names a pod that is both forwarded and eligible if there is one, else "" |
| PodReconciler.ServiceFWD.ForwardPod | pkg/fwdservice/fwdservice.go:628-733 | Builds, for one pod, a forward for each non-UDP port whose mapped local port parses and whose key has no entry, and for no other; each goes to the port and container found in the pod |
| PodPorts.MappedPortIs | pkg/fwdservice/fwdservice.go:916-927 | The first mapping of a source port gives its local port; an unmapped port is its own |
| PodPorts.ForwardableIff | pkg/fwdservice/fwdservice.go:656-673 | A port whose local port is written as a number is forwarded exactly when it is not UDP and the number has 32 bits |
| PodPorts.NamedPodPort | pkg/fwdservice/fwdservice.go:686-691 | A named target port becomes the number and the container of the first container port of that name |
| PodPorts.UnknownPodPort | pkg/fwdservice/fwdservice.go:886-896 | A name no container port has stays as it is, without a container |
| PodPorts.NumericPodPort | pkg/fwdservice/fwdservice.go:692-696 | A numeric target port keeps its text and goes to the first container with that port |
| PodPorts.UnknownNumericPodPort | pkg/fwdservice/fwdservice.go:898-913 | A number no container port has goes to the first container, if any |
| PodPorts.PortSearchFinds | pkg/fwdservice/fwdservice.go:886-896 | The port search finds the first container port of the name, and nothing only when there is none |
| PodReconciler.ServiceFWD.LoopPodsToForward | pkg/fwdservice/fwdservice.go:617-790 | The same over a list of pods, with or without the pod name in front of the service |
| PodReconciler.ServiceFWD.GetPodsForService | pkg/fwdservice/fwdservice.go:386-417 | Filters the listed pods in order; PodReconciler.EligiblePodsAre says which |
| PodReconciler.EligiblePodsAre | pkg/fwdservice/fwdservice.go:365-417 | A pod is in the answer exactly when it is listed, not being deleted, and pending, or running with a ready container |
| PodReconciler.EligiblePodsInOrder | pkg/fwdservice/fwdservice.go:402-416 | The answer keeps the order of the list |
| PodReconciler.ServiceFWD.AddServicePod | pkg/fwdservice/fwdservice.go:807-838 | The first forward to claim a key keeps it, and the result says whether this was it |
| PodReconciler.ServiceFWD.RemoveOwnForward | pkg/fwdservice/fwdservice.go:795-802 | The entry under the forward's key goes exactly when it is this very object |
| PodReconciler.ServiceFWD.StopAllPortForwards | pkg/fwdservice/fwdservice.go:313-345 | The map is emptied and every forward that was in it is told to stop and returned |
| PodReconciler.ServiceFWD.RemoveServicePod | pkg/fwdservice/fwdservice.go:850-866 | An existing entry's forward is stopped and done, and the key is gone |
| PodReconciler.ServiceFWD.UpdateService | pkg/fwdservice/fwdservice.go:280-309 | Every old forward is stopped, out of the map, and done unless its wait timed out; the map is empty if the service was shut down meanwhile, else what a sync from nothing with the new spec gives |
| PodReconciler.PortForward.Stop | pkg/fwdport/fwdport.go:862-873 | The stop channel is closed exactly by the first Stop that finds neither channel closed |
| ReconnectBackoff.WaitDoublesToCap | pkg/fwdservice/fwdservice.go:194-204 | In every run the n-th reconnect in a row, from 0, waits min(2^n, 300) seconds |
| ReconnectBackoff.PendingBounded | pkg/fwdservice/fwdservice.go:176-251 | In every run at most one reconnect goroutine is pending, plus one for each ForceReconnect |
| ReconnectBackoff.SingleFlight | pkg/fwdservice/fwdservice.go:176-251 | If every ForceReconnect comes when none is pending, or after the shutdown, at most one ever is, and before the shutdown the flag says which |
| ReconnectBackoff.SingleFlightIff | pkg/fwdservice/fwdservice.go:247-251 | At a ForceReconnect that condition is exact for all continuations without another one |
| ReconnectBackoff.NothingAfterShutDown | pkg/fwdservice/fwdservice.go:181-186 | After the shutdown nothing more is scheduled |
| ReconnectBackoff.BoundIsReached | pkg/fwdservice/fwdservice.go:247-251 | For every k a run with k ForceReconnect calls and k + 1 pending goroutines |
| ReconnectBackoff.Reconnector.ScheduleReconnect | pkg/fwdservice/fwdservice.go:176-206 | Schedules exactly when enabled, not shut down and not already reconnecting; doubles the backoff up to the cap |
| ReconnectBackoff.Reconnector.ForceReconnect | pkg/fwdservice/fwdservice.go:247-251 | Backoff and flag are cleared, pending goroutines stay |
| FwdIpProperties.OneAddressPerKey | pkg/fwdip/fwdIp.go:103-114 | Over every run two answered calls get one address exactly when cluster, namespace and "service-pod" text agree; every answer is loopback; the allocated set is exactly the registered addresses |
| FwdIpProperties.AnswerStays | pkg/fwdip/fwdIp.go:107-114 | A key once given an address keeps it for the rest of every run |
| FwdIpProperties.ExhaustedMeansFull | pkg/fwdip/fwdIp.go:139-160 | Over every run an in-range request is refused only when all 256 addresses of its block are allocated or reserved |
| FwdIpProperties.RefusalsOfRun | pkg/fwdip/fwdIp.go:119-160 | Over every run an in-range request is refused exactly when its key is not registered, its reservation cannot be, and every address of its block from the counter on is allocated or reserved for another service |
| FwdIpAnswers.ReservationHonoured | pkg/fwdip/fwdIp.go:119-132 | Over every run a new key whose first matching reservation parses to an address neither allocated nor reserved for another service is answered that address |
| FwdIpAnswers.CounterAnswer | pkg/fwdip/fwdIp.go:134-160 | Any other new key is refused out of range, and in range answered the first address of its block, from the counter on, that is neither allocated nor reserved for another service, or refused when there is none |
| FwdIpAnswers.RegisteredAnswer | pkg/fwdip/fwdIp.go:107-111 | A registered key is answered its address |
| FwdIpProperties.FirstFit | pkg/fwdip/fwdIp.go:134-160 | The counter path yields the first offset at or above the counter that is neither allocated nor reserved for another service, and the counter stops just past it |
| FwdIpProperties.DetermineInv | pkg/fwdip/fwdIp.go:119-182 | One allocation keeps the invariant: registry injective, allocated set equal to its values, counters within 0-256, and every offset below a counter allocated or reserved; a refusal leaves the registry alone with the counter at 256 |
| FwdIpProperties.GetInv | pkg/fwdip/fwdIp.go:103-114 | GetIP keeps that invariant and every registered address, and registers a success under the caller's key only |
| FwdIpProperties.RegisterInv | pkg/fwdip/fwdIp.go:162-182 | Registering an address that is neither allocated nor reserved for another keeps the invariant |
| FwdIpProperties.RegKeyShared | pkg/fwdip/fwdIp.go:107 | Two requests have one registry key exactly when cluster, namespace and "service-pod" text agree |
| FwdIpProperties.DottedRoundTrip | pkg/fwdip/fwdIp.go:184-207 | ipFromString reads back every printed address |
| FwdIpTexts.AddressOfNumbers | pkg/fwdip/fwdIp.go:184-207 | Four dotted numbers parse to exactly those octets in that order if each is within a byte, and not otherwise |
| FwdIpTexts.AddressHasThreeDots | pkg/fwdip/fwdIp.go:185-188 | A text without exactly three dots does not parse |
| FwdIp.Registry.GetIP | pkg/fwdip/fwdIp.go:103-114 | Answer and new registry are those of the specification function |
| FwdIp.Registry.DetermineIP | pkg/fwdip/fwdIp.go:119-160 | Likewise for determineIP with its recursive retry, which ends within 256 minus the counter steps |
| FwdIp.Registry.NextAddress | pkg/fwdip/fwdIp.go:134-153 | Refuses exactly out of range; otherwise the address is the base plus the offsets bytewise modulo 256 and the counter moves by one |
| FwdIp.Registry.TryReservation | pkg/fwdip/fwdIp.go:122-132 | Uses the first matching reservation exactly when it parses and can be registered |
| FwdIp.Registry.AddToRegistry | pkg/fwdip/fwdIp.go:162-182 | Registers exactly when the address is not allocated and no reservation of it is for another service |
| FwdIpReservationRuns.DisregardedIff | pkg/fwdip/fwdIp.go:119-220 | For every validated configuration: some run of GetIP registers a reservation's address for a service it does not match exactly when there is such a service that no reservation refuses the address and that has it as its own first reservation or in its block |
| FwdIpReservationRuns.ReservationsRespectedIff | pkg/fwdip/fwdIp.go:119-220 | When no dotted entry follows another of its name, all runs respect all reservations exactly when each reservation, or another of its name, is written in dotted form |
| FwdIpReservationRuns.BlockFills | pkg/fwdip/fwdIp.go:134-160 | A service and its twins, which every reservation treats alike, register every usable address of their block by the time they fill it |
| FwdIpReservationRuns.UnspelledIsExposed | pkg/fwdip/fwdIp.go:134-160 | A reserved address that no entry spells is in reach of a service the reservation does not match, in the address's own block |
| FwdIpReservationRuns.SpelledForAnother | pkg/fwdip/fwdIp.go:122-132 | One that only an entry of another name spells, the first of that name, is in reach of the services of that name |
| FwdIpReservations.ReservationsProtectedIff | pkg/fwdip/fwdIp.go:209-220 | The conflict check alone refuses every other service, whatever the address, exactly when each reservation, or another of its name, is written in dotted form |
| FwdIpReservations.ReservationsRespected | pkg/fwdip/fwdIp.go:119-182 | Then over every run, on both paths, an address is registered only for services that every reservation of it matches |
| FwdIpReservationRuns.LeadingZeroAnswered | pkg/fwdip/fwdIp.go:184-220 | With the validated reservation 127.1.27.01, the first GetIP of any service of the first namespace is answered 127.1.27.1, registered against the reservation if the service is another |
| FwdIpReservations.MatchesIff | pkg/fwdip/fwdIp.go:323-452 | A reservation matches a service exactly when its name is the pod, the service or "pod.service" followed by one of the suffixes its cluster and namespace ordinals allow, or "service.svc" for the very first namespace |
| FwdIpTexts.FlagIsRead | pkg/fwdip/fwdIp.go:429-438 | A flag is read as a name and an address exactly when it is "name:address" with both parts present and no colon in the name |
| FwdIpTexts.FlagIsIgnored | pkg/fwdip/fwdIp.go:429-433 | Every other flag is ignored |
| FwdIpTexts.FlagsWin | pkg/fwdip/fwdIp.go:268-287 | After the command-line pass each entry has the address of the last flag "name:address" for its name, or is as the file had it when no flag is for its name; every name a flag is for has an entry |
| FwdIpReservations.LastFlagWins | pkg/fwdip/fwdIp.go:268-287 | Moreover every name of the file keeps its entries, in their places |
| FwdIpReservations.ApplyCLIPassedReservations | pkg/fwdip/fwdIp.go:268-290 | The in-place pass computes that list, skipping malformed flags, and succeeds exactly when the result is valid |
| FwdIpReservations.OverrideNamed | pkg/fwdip/fwdIp.go:276-283 | Every entry of the name gets the address, and the result says whether there was one |
| FwdIpReservations.ValidateForwardConfiguration | pkg/fwdip/fwdIp.go:241-266 | Accepts exactly loopback base and reservations with pairwise different address strings |
| FwdIpTexts.ValidWhenDotted | pkg/fwdip/fwdIp.go:241-266 | A configuration with dotted addresses is valid exactly when all are loopback and the reserved ones pairwise different |
| FwdIpSimple.SimpleAllocator | pkg/fwdip/fwdIp.go:134-160 | Without reservations, over every run, a key new to block (c, n) gets base + (0, c, n, k) bytewise modulo 256, where k keys came before it in the block, and is refused from the 257th on or out of range |
| FwdIpSimple.DistinctServicesCanShare | pkg/fwdip/fwdIp.go:107 | Two different services answered with one address |
| FwdOrdinals.OrdinalsOfRun | pkg/fwdns/manager.go:376-394 | In every interleaving of StartWatcher, StopWatcher and both halves of CreateServiceFWD, a call's ordinals are the places of its context and of its namespace key in the orders of first indexing, so they name them one to one |
| FwdOrdinals.ApiBlockIff | pkg/fwdns/manager.go:492-495 | In every interleaving a call is answered (1, 0) exactly when its context is the second indexed and its namespace key the first |
| FwdOrdinals.SomeCallGetsApiBlockIff | pkg/fwdns/manager.go:492-495 | Some call is answered (1, 0) exactly when the first namespace key is indexed for a context whose index is then 1 |
| FwdOrdinals.OneLockOrdinals | pkg/fwdns/manager.go:178-180 | If both ordinals are taken under one lock, as by StartWatcher alone, the namespace ordinal is never below the cluster ordinal |
| FwdAddresses.ApiAddressAnsweredIff | pkg/fwdapi/manager.go:30-32 | Without reservations, some run of GetIP fed by an interleaving's ordinals is answered the API address exactly when the first namespace key was indexed for a context whose index was then 1 |
| FwdAddresses.ApiAddressOnlyIf | pkg/fwdip/fwdIp.go:103-182 | Over every run of GetIP so fed, reservations included, the API address is answered only if reserved or if some call was given block (1, 0) |
| FwdAddresses.OneLockAvoidsApi | pkg/fwdns/manager.go:178-180 | With both ordinals under one lock no run of GetIP is answered the API address unless it is reserved |
| FwdAddresses.AddressesOfRun | pkg/fwdhost/fwdhost.go:68-78 | Over every run of GetIP so fed, isKubefwdIP recognises a first answer that is not a reservation exactly when 1 <= c <= 254, or c = 0 and n <= 228 |
| FwdAddresses.DefaultIsBased | pkg/fwdip/fwdIp.go:48-50 | The default base text parses to 127.1.27.1, so every valid configuration with it is one the address results speak of |
| FwdAddresses.ApiAddressIff | pkg/fwdapi/manager.go:30-32 | In-range offsets from the default base hit 127.2.27.1 exactly at cluster 1, namespace 0, service 0 |
| FwdAddresses.KubefwdIPsAre | pkg/fwdhost/fwdhost.go:68-78 | isKubefwdIP accepts exactly the addresses from 127.1.27.0 to 127.255.255.255, so only loopback ones |
| FwdAddresses.KubefwdIPIff | pkg/fwdhost/fwdhost.go:68-78 | Which in-range offsets from the default base isKubefwdIP accepts |
| FwdAddresses.InterleavedCallsReachApi | pkg/fwdns/manager.go:492-495 | A run of two CreateServiceFWD calls after which a service is answered the API address |
| FwdAddresses.InterleavedWatcherReachesApi | pkg/fwdns/manager.go:178-180 | A run in which a CreateServiceFWD between its two ordinals does the same to a StartWatcher |
| FwdOrdinals.NamespaceManager.StartWatcher | pkg/fwdns/manager.go:146-220 | One atomic step: refused exactly when the namespace is watched or the client fails, else both ordinals and the new watcher |
| FwdOrdinals.NamespaceManager.TakeContext | pkg/fwdns/manager.go:494 | The first critical section of CreateServiceFWD as a step |
| FwdOrdinals.NamespaceManager.TakeNamespace | pkg/fwdns/manager.go:495 | The second one |
| FwdOrdinals.WatchStopWatch | pkg/fwdns/manager.go:146-270 | A watched namespace is refused a second watcher; once stopped it is watched again, under the ordinals it had |
| FwdOrdinals.OthersWatch | pkg/fwdns/manager.go:172-176 | A StartWatcher whose client cannot be made changes nothing, and stopping a watcher leaves the others |
| FwdNs.WatcherKeyUnique | pkg/fwdns/manager.go:33-35 | For namespaces without dots the key determines namespace and context |
| FwdNs.ParseNamespaceKey | pkg/fwdapi/handlers/namespaces.go:216-224 | The scan returns what lies around the first dot, or two empty strings |
| FwdNs.KeyParts | pkg/fwdapi/handlers/namespaces.go:216-224 | A key without a dot gives two empty strings, any other one its text around the first dot |
| FwdNs.ParseUndoesWatcherKey | pkg/fwdapi/handlers/namespaces.go:216-224 | Parsing undoes WatcherKey exactly for namespaces without a dot, whatever the context |
| StateStoreProperties.AgreementInEveryState | pkg/fwdtui/state/store.go:61-173 | If the keys of the forwards that may be added tell them apart, then in every state of every run of store operations a service entry exists exactly when some forward carries its key, and its list (hostnames aside), byte totals and counts equal recomputation |
| StateStoreProperties.AgreementIff | pkg/fwdtui/state/store.go:61-173 | All runs that add only given forwards agree in all their states exactly when any two of the forwards with one key have one service key, and any two with one service key have one namespace and context |
| StoreEvents.AgreementOverEvents | pkg/fwdtui/ui.go:152-224 | Over every run of events as NewPodEvent builds them the aggregates agree, if pods, and services, whose keys collide have names with as many dots |
| StoreEvents.CollisionBreaks | pkg/fwdtui/events/types.go:115-127 | Any two PodAdded events of which that is not so break the agreement, with the first one's namespace removed after them if the service key collides |
| StoreEvents.DottedPodCollides | pkg/fwdtui/events/types.go:119 | Concrete events: pod "x.y" in context "c" and pod "y" in context "c.x" share a forward key |
| StoreEvents.HeadlessServiceCollides | pkg/fwdtui/events/types.go:119 | Concrete events: a headless service's pod and a service of another namespace and context share a service key, and removing one's namespace takes the other's service |
| EventKeys.ServiceKeyShared | pkg/fwdtui/events/types.go:119 | Services that share a key share namespace and context exactly when their names, or their contexts, have as many dots |
| EventKeys.ForwardKeyShared | pkg/fwdtui/ui.go:155 | Forwards that share a key share the service key exactly when their pods' names have as many dots; their ports always agree |
| StateStoreProperties.AddKeepsAgreementIff | pkg/fwdtui/state/store.go:62-88 | Adding an unblocked forward keeps the agreement exactly when no forward of its key belongs to another service |
| StateStoreProperties.RemoveNamespaceKeepsAgreementIff | pkg/fwdtui/state/store.go:455-492 | Removing a namespace keeps the agreement exactly when forwards are in it just when their services are |
| StateStoreProperties.RemoveKeepsAgreement | pkg/fwdtui/state/store.go:91-108 | Removing a forward keeps the agreement, with the service going when its last forward does |
| StateStoreProperties.UpdateKeepsAgreement | pkg/fwdtui/state/store.go:111-145 | Metric and status updates keep it |
| StateStoreProperties.HostnamesKeepAgreement | pkg/fwdtui/state/store.go:445-451 | Hostname updates, which do not refresh the aggregate, keep it up to hostnames |
| StateStoreProperties.SummaryConserves | pkg/fwdtui/state/store.go:211-241 | In agreement, a summary's forward and error counts and byte totals are the sums over the service aggregates, and its active services are the distinct service keys with an active forward |
| StateStoreProperties.SummaryInEveryState | pkg/fwdtui/state/store.go:211-241 | So in every state of every run of store operations that adds only forwards told apart by their keys |
| StateStoreProperties.RemovedStaysInvisible | pkg/fwdtui/state/store.go:455-502 | After RemoveByNamespace no run of store operations shows a forward or service of that namespace before it is unblocked; no other namespace's unblock lifts the block |
| StateStoreProperties.RemoveLeavesOthers | pkg/fwdtui/state/store.go:467-489 | Other namespaces' forwards, services and block status are untouched |
| StateStore.Store.Aggregate | pkg/fwdtui/state/store.go:149-173 | Recomputed in any map order, an aggregate agrees with the forwards and keeps its identity fields |
| StateStore.Store.AddForward | pkg/fwdtui/state/store.go:62-88 | The whole new state; nothing changes for a blocked namespace |
| StateStore.Store.RemoveForward | pkg/fwdtui/state/store.go:91-108 | The whole new state; the service goes exactly when no forward of its key is left |
| StateStore.Store.UpdateMetrics | pkg/fwdtui/state/store.go:111-129 | The whole new state, with the one service refreshed |
| StateStore.Store.UpdateStatus | pkg/fwdtui/state/store.go:132-145 | The whole new state, with the one service refreshed |
| StateStore.Store.UpdateHostnames | pkg/fwdtui/state/store.go:445-451 | The whole new state, with no service refreshed |
| StateStore.Store.RemoveByNamespace | pkg/fwdtui/state/store.go:455-492 | The whole new state, and the number of forwards removed |
| StateStore.Store.UnblockNamespace | pkg/fwdtui/state/store.go:496-502 | The block is lifted and nothing else changes |
| StateStore.Store.GetSummary | pkg/fwdtui/state/store.go:211-241 | The sizes, the counts and the wrapping byte totals over all forwards, in any map order |
| StoreEffects.AddShows | pkg/fwdtui/state/store.go:62-88 | An added forward is stored as given unless its namespace is blocked, all others stay, and a service it is the first of carries its name and place |
| StoreEffects.RemoveShows | pkg/fwdtui/state/store.go:91-108 | A removed forward is gone, all others stay, and its service is there exactly when it has another forward |
| StoreEffects.MetricsShow | pkg/fwdtui/state/store.go:111-129 | After a metrics update of a known key its two byte counters are the arguments, and every other field and forward is unchanged |
| StoreEffects.MetricsMoveSummary | pkg/fwdtui/state/store.go:111-241 | The summary's two byte totals then move by exactly the two differences, modulo 2^64, and its counts stay |
| StoreEffects.StatusShows | pkg/fwdtui/state/store.go:132-145 | After a status update of a known key its status and error text are the arguments, and nothing else of the forwards changes |
| StoreEffects.StatusMovesSummary | pkg/fwdtui/state/store.go:132-241 | The summary's active and error counts then move by that forward's change, and its byte totals stay |
| StoreEffects.HostnamesShow | pkg/fwdtui/state/store.go:445-451 | After a hostname update of a known key its hostnames are the argument, and nothing else changes |
| StoreEffects.UnblockedIsStored | pkg/fwdtui/state/store.go:494-502 | After an unblock an added forward of that namespace is stored; no other block and no content changes |
| StoreEffects.CountsAre | pkg/fwdtui/state/store.go:165-170 | The active and error counts are the numbers of forwards with those statuses |
| StoreEvents.HandleEventForStore | pkg/fwdtui/ui.go:152-196 | Each event acts on the store as exactly the operations it stands for |
| StoreEvents.HandlePodStatusChanged | pkg/fwdtui/ui.go:199-224 | A status update, and a hostname update exactly when active with hostnames |
| StoreEffects.AddedEventShows | pkg/fwdtui/ui.go:154-172 | After a PodAdded event for an unblocked namespace the forward is in the store under "service key.pod.port" with each of the event's fields, connecting, without traffic or error |
| StoreEffects.RemovedEventShows | pkg/fwdtui/ui.go:174-176 | After a PodRemoved event that forward is gone and the others are untouched |
| StoreEffects.StatusEventShows | pkg/fwdtui/ui.go:199-224 | After a PodStatusChanged event a known forward shows the status the text names, pending for any other text, the error text, and the hostnames if active with some |
| StoreEvents.RemoveShown | pkg/fwdtui/ui.go:1157-1165 | Removes each forward of the service that passes the display filter, and no other |
| StoreEvents.ServiceRemovedIff | pkg/fwdtui/ui.go:1157-1165 | A ServiceRemoved event leaves none of the service's forwards exactly when all of them match the filter text |
| StoreEvents.FilteredForwardSurvives | pkg/fwdtui/ui.go:1157-1165 | Events and a filter text after which a removed service's forward is still in the TUI's store |
| StoreEffects.FilterIff | pkg/fwdtui/state/store.go:267-295 | A forward passes a filter exactly when that is empty or part of a lower-cased hostname, service name, namespace or pod name |
| StoreEvents.ServiceRemovedUnfiltered | pkg/fwdtui/ui.go:181-187 | Without a filter, as on the standalone store, every forward of the service goes |
| StoreEvents.EventsCannotResurrect | pkg/fwdtui/ui.go:152-224 | No sequence of events, under whatever filters, makes anything of a removed namespace visible |
| RingBuffers.HistoryRing.Add | pkg/fwdapi/history/store.go:163-244 | The record is appended to everything ever recorded, under an id one above the number recorded before |
| RingBuffers.HistoryRing.GetRecent | pkg/fwdapi/history/store.go:247-332 | The first n matches among the stored tail, newest first, for both GetEvents and GetReconnects |
| RingBuffers.HistoryRing.GetErrors | pkg/fwdapi/history/store.go:276-304 | The newest n records, newest first |
| RingBuffers.HistoryRing.AnswerDescends | pkg/fwdapi/history/store.go:247-332 | Answers hold only recorded, matching entries, with strictly falling ids |
| RingBuffers.HistoryRing.AnswerMissesOlder | pkg/fwdapi/history/store.go:247-332 | A stored, matching entry that is left out is older than all n that are returned |
| RingBuffers.MatchingIs | pkg/fwdapi/history/store.go:266-268 | A query keeps exactly the entries of its type or key; an empty one keeps all |
| RingBuffers.HistoryRing.RecordAt | pkg/fwdapi/history/store.go:259-264 | A slot the scan visits holds a record with a positive id, so its branch for an empty slot is never taken |
| RingBuffers.HistoryRing.Clear | pkg/fwdapi/history/store.go:360-375 | Nothing stored is left, and ids go on where they were, so they stay unique |
| RingBuffers.LogBuffer.Add | pkg/fwdapi/logbuffer.go:44-53 | The buffer holds the tail of what was recorded since the last clear, one entry longer |
| RingBuffers.LogBuffer.GetLast | pkg/fwdapi/logbuffer.go:56-78 | The last n entries, newest first, capped at what is stored and at 10000 |
| RingBuffers.LogBuffer.Clear | pkg/fwdapi/logbuffer.go:95-100 | Nothing recorded is left |
| RingBuffers.HTTPLog.AddLog | pkg/fwdmetrics/httpsniff.go:209-215 | The ring holds the tail of what was logged, one entry longer |
| RingBuffers.HTTPLog.GetLogs | pkg/fwdmetrics/httpsniff.go:218-256 | The last n entries oldest first, and all that are stored when n is out of range |
| RingBuffers.HTTPLog.ClearLogs | pkg/fwdmetrics/httpsniff.go:259-268 | Nothing logged is left and every slot is zeroed |
| RateCalculator.Calculator.AddSample | pkg/fwdmetrics/rate.go:31-47 | Growing or wrapped, the window holds the tail of the samples recorded |
| RateCalculator.Calculator.GetInstantRate | pkg/fwdmetrics/rate.go:52-80 | The rates between the last two stored samples |
| RateCalculator.Calculator.GetAverageRate | pkg/fwdmetrics/rate.go:85-118 | The rates between the ends of the last min(window + 1, stored) samples |
| RateCalculator.Calculator.GetHistory | pkg/fwdmetrics/rate.go:121-141 | The last stored samples, oldest first |
| RateCalculator.RatesAre | pkg/fwdmetrics/rate.go:67-79 | Each rate is its own counter's difference over the elapsed time; both are zero when time stood still or either counter fell |
| RateCalculator.AverageIsBracketed | pkg/fwdmetrics/rate.go:85-118 | With increasing times and counters that never fall, the average in each direction lies between two of the consecutive-pair rates in its window |
| RateCalculator.BoundsCarryOver | pkg/fwdmetrics/rate.go:85-118 | So any bounds on the consecutive rates, in each direction, bound the average |
| RateCalculator.AverageOverOneIsInstant | pkg/fwdmetrics/rate.go:52-118 | An average over one second is the instant rate |
| LogLines.SplitLogLines | pkg/fwdapi/adapters.go:934-965 | The byte loop with its skip computes: delete carriage returns, split at line feeds, drop a final empty piece |
| LogLines.PrintedLinesComeBack | pkg/fwdapi/adapters.go:933-965 | Lines printed with LF or CRLF, in any mix, come back as they were exactly when none contains a terminator character |
| LogLines.UnterminatedEnd | pkg/fwdapi/adapters.go:960-963 | A last line without terminator is kept too, unless it is empty |

## Left out

- ForwardProtocol.LiveForwardsAreRegistered: for runs in which nothing registers between the look-up and the deletion of one RemoveServicePod, because the code deletes without an identity check.
- PodReconciler.ServiceFWD.Reconcile: registers the spawned forwards after the sync rather than concurrently, and PortForward.Finish stands for a stopped forward ending at once; interleavings are the subject of ForwardProtocol.
- PodReconciler.ServiceFWD.DoSyncPods: assumes pods have names, as Kubernetes guarantees.
- StateStoreProperties.AgreementInEveryState: hostnames in an aggregate are excluded, because UpdateHostnames does not refresh it.
- StateStoreProperties.SummaryConserves: service byte totals are compared modulo 2^64, the width of the counters.
- StoreEvents.ServiceRemovedIff: the filter's lower case is that of ASCII letters.
- ForwardProgress.EndsByItself: a forward that fails before its hosts are added has no cleanup goroutine, so the alias of its address is not removed, as in the code.
- FwdIpReservations.ApplyCLIPassedReservations: a panic or fatal exit on an invalid configuration is None; the configuration is then a constant, not loaded on first use.
- FwdIpReservations.MatchesIff: for ordinals that are not negative, as the namespace manager assigns them.
- FwdOrdinals.NamespaceManager.StartWatcher: lifting the store's block on the namespace is a step of the store, StateStore.Store.UnblockNamespace.
- FwdAddresses.KubefwdIPIff: isKubefwdIP is modelled on an address, after Go's own parsing of the text.
- RingBuffers.HistoryRing.GetRecent: one ring class stands for the three rings of the history store, with the event type or service key as tag, all other fields as data, and the default size as a parameter.
- RingBuffers.LogBuffer.Add: requires a positive size, with which alone the code does not panic.
- RingBuffers.HTTPLog.GetLogs: stands for GetAllLogs too, which is the case of a count out of range.
- RateCalculator.Calculator.GetAverageRate: rates and times are reals, counters have no upper bound, and the window plus one does not overflow.
- Integers other than the byte counters and address bytes are unbounded: record ids and ordinals do not wrap.
- The Kubernetes API, informers, dialing and pinging: only "the forward ends" is a step, at any time.
- The contents of /etc/hosts, alias commands and busy ports: set-up and cleanup are events in a log. A partly failed AddHosts is one failing step.
- GlobalPodInformer's lists; its stop of a forward is a step that is always possible.
- Debouncing, resync intervals and retry timers: a sync or a scheduled reconnect may happen at any time.
- Reading YAML and log output.
- Rates and timestamps in the store, and sorting, which only orders.
- HTTP sniffing itself, the metrics registry's totals, REST handlers, MCP tools and the terminal interface.
