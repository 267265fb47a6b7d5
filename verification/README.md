# Fabric adapter: model and proofs

The fabric adapter takes the configuration of SDN fabrics from a gNMI server and brings two kinds of
controllers in line with it: ONOS, which gets one network configuration ("netconfig") per fabric, and the
Stratum switches, each of which gets its own chassis configuration. This project models that adapter in
Dafny and proves what it keeps, under every interleaving of its goroutines and replicas and for every way
its remote calls can end.

`dafny verify dfyconfig.toml` checks everything.

## How it is put together

| file | what it holds |
|---|---|
| `Basics.dfy`, `Text.dfy` | optional values, Go's widths, visiting orders of maps; printing and sorting |
| `Net.dfy` | management addresses, synthetic loopbacks and their counter, router MACs |
| `Fabrics.dfy` | the configuration, and what a right netconfig or chassis configuration is, independently of how it is built |
| `Builds.dfy` | what a build draws from the counter of synthetic addresses, and which switches become devices, as a function |
| `Translate.dfy` | the handlers that build them, imperatively, tied to those definitions |
| `SidStore.dfy` | the segment-ID store as a protocol of any number of replicas, and its methods |
| `Mailbox.dfy` | the latest-wins channel and the retry loop as a protocol of any number of producers and one consumer |
| `PushCycle.dfy` | one synchronization attempt, its cache, and what the controllers hold |
| `StratumPushes.dfy` | the order in which the switches of a fabric are pushed |
| `Adapter.dfy` | mailbox, retry loop, attempts, cache and controllers together, interleaved step by step |
| `Synchronizer.dfy` | the synchronizer object with its fields and methods; each method is a run of the step-by-step model |
| `HostNames.dfy` | switches with host names, over whole runs |
| `Forced.dfy` | what a forced resynchronization achieves, depending on what the consumer is doing |
| `StaleSuccess.dfy` | two whole runs that end in a reported success: with the wrong content at ONOS, and without the pushes that were asked for |

The protocols are step machines. `Exec(s, steps)` is the state that a list of steps leads to, if each of
them was enabled in turn. A property of every run is an invariant kept by every step, and a hypothesis
about a run is a predicate over its steps. Every remote call ends in one of three ways: it is applied, it
is refused, or it takes effect while its caller sees an error. The methods of the classes return, as ghost
results or in the ghost field `history`, the steps they amount to, so that what is proved about runs holds
of them. There the endings are inputs too: operation number i of the SID store ends as `ends(i)`, and so does
request number i to the controllers, all of which are in `log`. So a method's contract says what it returns
as a function of what the environment did, and `log` is, request by request, what the steps in `history` send.

## What the proofs say about the code

The main results hold under conditions. For most of them there is a result that says exactly when they
hold, or that they fail in every state in which the condition is given up; for the others, a run.

* Convergence. In every run whatsoever, an attempt that returned (0, nil) leaves the controllers with its
  configuration if it was sound: none of its builds left out an eligible switch, and it was not satisfied
  with the cache for a fabric in doubt (`Adapter.LastAttemptGood`, and for the newest configuration on an
  idle adapter `Adapter.Converges`). A fabric is in doubt from a push that took effect but was reported as
  failed, while the cache held another netconfig, until the next cache update for it or the next
  invalidation; with partial updates enabled those are exactly the fabrics whose cache entry differs from
  what ONOS holds (`Adapter.CacheAlwaysAgrees`). What went wrong before the last attempt does not matter.
  Exactly when the controllers are right, for configurations whose map keys are the objects' own IDs and
  whose cages have two digits, is this: what ONOS holds for each fabric was built from a configuration that
  translates alike and left out no eligible switch, where the build is the last attempt's own, or that of
  the doubtful push if the attempt was satisfied with the cache in doubt (`Adapter.LastAttemptExactly`,
  `Adapter.ConvergesExactly`). The code guarantees neither half: a switch whose SID cannot be obtained, or
  that has a host name once the synthetic addresses have run out, is skipped and the push of the rest counts
  as a success; and a return to an older configuration can hit a doubtful entry
  (`StaleSuccess.ReportedSuccess` is such a run from start to end).
* The SIDs are those the builds were told. They are still the store's if no lookup misses a switch for which
  another replica is allocating (`Adapter.ConvergesWithStore`, by `SidStore.ToldSidsStand`), and as soon as
  one does, a SID can change (`SidStore.OverlapIsFatal`).
* With the push cache, ONOS holds at every moment what it would hold without, if and only if no stale cache
  entry is ever hit (`Adapter.RefinementIsExact`).
* A Forced update makes the next attempt push every fabric it reaches, exactly once, if no attempt is under
  way that has anything left to push or to remember (`Forced.ForcedResync`). Exactly when the next attempt
  never hits the cache, until the counter of synthetic addresses wraps: if the attempt under way has no
  further fabric to build, and what it has at hand, if anything, is a netconfig with a host name, which is
  never built again (`Forced.ForcedExactly`). And exactly when every fabric has been pushed again: if no
  cache update of a netconfig without host names is on its way (`Forced.EveryFabricPushedAgain`,
  `Forced.PushedAgainExactly`). Otherwise the Forced update may push nothing at all
  (`StaleSuccess.ForcedPushesNothing`).
* Host names as management addresses cost something: until the counter wraps a fabric with one is pushed anew
  by every attempt, there are at most 128 such devices in the life of the process, pairwise distinct, and
  after that no attempt at such a fabric is sound (`HostNames.HostNamesNeverHit`, `HostNames.AtMost128`,
  `HostNames.LoopbacksDistinct`, `HostNames.TooLateToBeSound`).
* An update is attempted again exactly as long as attempts at it fail to push something
  (`Mailbox.RetriedUntilDecided`), and the push errors that attempts return are exactly the requests that were
  not reported to have succeeded (`Adapter.PushErrorsConserved`).
* The newest update is never lost if there is one producer (`Mailbox.NewestNeverLost`). With two, it can be
  drained in favour of an older one (`Mailbox.TwoProducersLoseTheNewest`); what is never lost then is the
  update sent last (`Mailbox.LastSentIsServed`, `Mailbox.NewestServedLastExactly`).
* An obsolete update is attempted at most once more while a newer one stays queued
  (`Mailbox.AtMostOneMoreAttempt`). While a producer is between draining the channel and sending, there is
  no such bound (`Mailbox.RetriedWhileReplacing`).
* SIDs are unique if initialization precedes allocation and the counter stays below 2^32
  (`SidStore.SidsUnique`, `SidStore.AnswersUnique`). As soon as some SID is stored, any replica that is still about
  to initialize can break it (`SidStore.ResetIsFatal`), and so can any replica by going on for long enough
  (`SidStore.WrapIsFatal`).
* Building a fabric again is sure to give the same netconfig if and only if the management addresses are IP
  literals and the valid routes are alike (`Builds.NetConfigUnique`).
* Port keys tell ports apart exactly for cages up to 99 (`Fabrics.PortIdBoundIsExact`), Stratum port IDs
  exactly for cages from 1 to 99 and channels up to 100 (`Fabrics.StratumIdBoundIsExact`).
* At most 128 synthetic loopbacks are ever issued, and the bound is reached (`Net.LoopbacksRunOut`,
  `Net.ExactlySoMany`).

## Model

| member | source | states |
|---|---|---|
| Adapter.Converges | pkg/synchronizer/synchronizer.go:42-82 | in every run of one producer, when busy is 0 and the last attempt returned (0, nil), it was an attempt at the newest configuration, and if its builds left out no eligible switch and it did not hit the cache for a fabric in doubt, ONOS holds for every fabric a netconfig of the whole fabric with the SIDs the builds were told, and every switch with a known model its own chassis configuration |
| Adapter.ConvergesExactly | pkg/synchronizer/synchronizer.go:42-82 | for well-keyed configurations, and with the SIDs the builds were told: the controllers hold the newest configuration if and only if the netconfig that ONOS holds for each fabric was built, by the last attempt or by the push in doubt where the attempt was satisfied with a doubtful entry, from a configuration that translates alike, leaving out no eligible switch |
| Adapter.LastAttemptGood | pkg/synchronizer/synchronizer.go:50-59 | the same of the configuration attempted last, for any number of producers, whatever happened before and whatever else is going on |
| Adapter.LastAttemptExactly | pkg/synchronizer/synchronizer.go:50-59 | the same if and only if of the configuration attempted last, in every run of any number of producers, under the same two hypotheses: the configuration and those of the doubtful pushes are well keyed, and the SIDs include those told |
| Adapter.SoundHoldsRight | pkg/synchronizer/synchronizer.go:50-59 | a sound attempt is one case of that, and the only one if no doubtful entry was hit |
| Adapter.TracedThroughout | pkg/synchronizer/synchronize-device.go:327-350 | the invariant of every run behind these results: the cache agrees with ONOS except for the fabrics in doubt, doubts are founded, ONOS holds what the doubtful push built for those, and what the attempt built for each fabric it is through with, or the doubtful netconfig where it hit a doubtful entry |
| Adapter.ConvergesWithStore | pkg/store/store.go:98-117 | convergence with the SIDs that the store holds at the end of any run of its own in which no lookup misses a switch that another replica is allocating for |
| Adapter.ConvergesToLastSent | pkg/synchronizer/async.go:61-69 | with any number of producers the last attempt was one at the configuration sent last, and convergence holds of it |
| Adapter.WhenBlocked | pkg/synchronizer/async.go:72-76 | a loop blocked on an empty channel with no enqueue under way means busy is 0, and convergence if the last attempt succeeded and was sound |
| Adapter.CachedRefinesUncached | pkg/synchronizer/synchronize-device.go:327-350 | as long as no stale cache entry is hit: whatever an adapter with the push cache does, in any interleaving of producers, failures and forced invalidations, one without the cache can do with the same mailbox and results and the same content at every controller |
| Adapter.RefinementIsExact | pkg/synchronizer/synchronize-device.go:327-350 | the two hold the same at ONOS after every step if and only if no stale cache entry is ever hit |
| Adapter.CacheAlwaysAgrees | pkg/synchronizer/cache.go:22-41 | in every run, outside the window between a push and its cache update, the entry of a fabric that is not in doubt is what ONOS accepted last, and with partial updates enabled the entry of a fabric in doubt is not |
| Adapter.NeverInDoubt | pkg/synchronizer/synchronize-device.go:343-350 | a run in which ONOS acknowledges what it accepts has no doubts and no stale hits |
| HostNames.LoopbacksDistinct | pkg/synchronizer/util.go:131-142 | over all fabrics and attempts of a run, until the counter wraps, no two devices with host names are given the same loopback |
| HostNames.HostNamesNeverHit | pkg/synchronizer/synchronize-device.go:327-330 | a netconfig with a host name in it never hits the cache: its fabric is pushed anew by every attempt |
| HostNames.AtMost128 | pkg/synchronizer/util.go:131-142 | the builds of a whole run give at most 128 devices with host names |
| HostNames.TooLateToBeSound | pkg/synchronizer/synchronize-device.go:309-313 | an attempt begun after that, at a configuration with an eligible switch that has a host name, is never sound, whatever it returns |
| Forced.ForcedResync | pkg/synchronizer/synchronizer.go:33-38 | after an invalidation while no attempt has anything left to push or remember, and until a second attempt begins, the cache is never hit and the fabrics pushed to ONOS are those the attempt has reached, each once, and all of them once it has returned without an error |
| Forced.ForcedAttemptIsNew | pkg/synchronizer/synchronizer.go:33-38 | if busy was 0, that attempt is one at an update issued since |
| Forced.EveryFabricPushedAgain | pkg/synchronizer/synchronizer.go:33-38 | for any number of producers and attempts, after an invalidation with no cache update on its way, or one of a netconfig with host names and until the counter wraps: every fabric that a later attempt is through with has been pushed since |
| Forced.ForcedSatisfiedByCache | pkg/synchronizer/synchronize-device.go:343-350 | from every state of one producer in which an attempt still has a fabric to build, or a netconfig without host names to push or remember, the Forced update can arrive and its first attempt hit the cache, with nothing drawn from the counter; if such a netconfig was only to be remembered, without any push since |
| Forced.ForcedExactly | pkg/synchronizer/synchronizer.go:33-38 | with partial updates enabled, one producer and switches under their own IDs: until the counter wraps the first attempt after an invalidation never hits the cache if and only if no attempt was under way that still had a fabric to build, or a netconfig without host names to push or remember |
| Forced.PushedAgainExactly | pkg/synchronizer/synchronizer.go:33-38 | under the same hypotheses, every fabric it is through with has been pushed since if and only if no cache update of a netconfig without host names was on its way |
| Forced.PushesArePosted | pkg/synchronizer/synchronize-device.go:341-346 | the pushes that these results are about are the netconfigs posted by the requests of the run |
| Adapter.ResyncPushesNothing | pkg/synchronizer/synchronize-device.go:327-330 | once a deterministic configuration has been synchronized by a sound attempt, enqueueing it again any number of times, with complete builds told the same SIDs and without an invalidation, leads to no ONOS push |
| Adapter.MailboxRun | pkg/synchronizer/synchronizer.go:71-82 | every run of the whole adapter is a run of the mailbox protocol, so all its results carry over |
| Adapter.InnerRun | pkg/synchronizer/synchronizer.go:50-54 | the steps of an attempt made in isolation are steps of the adapter |
| Adapter.AttemptRun | pkg/synchronizer/synchronizer.go:50-59 | a whole call of SynchronizeDevice leads to success, abandonment or sleep according to what it returned, and makes the requests of its own steps |
| Adapter.PushErrorsConserved | pkg/synchronizer/synchronize-device.go:419-468 | in every run of any number of producers in which no controller lookup fails: the requests that were not reported to have succeeded are as many as the push errors that attempts have returned, plus the failures counted by the attempt under way |
| StaleSuccess.ReportedSuccess | pkg/synchronizer/synchronize-device.go:343-350 | a run with complete builds and one unacknowledged push ends idle, with (0, nil) returned last, while ONOS holds no netconfig of the newest configuration |
| StaleSuccess.ForcedPushesNothing | pkg/synchronizer/synchronizer.go:33-38 | a whole run in which a Forced update arrives between a push and its cache update: its attempt is the only one to begin after it, returns (0, nil), and nothing is pushed |
| Mailbox.BusyConserved | pkg/synchronizer/async.go:61-81 | for any number of producers busy is the channel length, plus enqueues between increment and send, plus drained updates not yet taken off, plus the update in service; it is between 0 and 2n + 2, and 0 exactly when nothing is pending |
| Mailbox.EveryUpdateInOnePlace | pkg/synchronizer/async.go:25-70 | every update issued is in exactly one of: being enqueued, queued, in service, drained, obsoleted, finished |
| Mailbox.RetriedUntilDecided | pkg/synchronizer/synchronizer.go:42-68 | for any number of producers: an attempt is followed by another one at the same update only if it failed to push something, and the finished updates are exactly those with an attempt that succeeded or ended in an error, which was their last |
| Mailbox.NewestNeverLost | pkg/synchronizer/synchronizer.go:42-68 | with one producer, busy being 0 means that the newest update was dequeued last, attempted by the last attempt, which succeeded or ended in an error, and finished, neither drained nor obsoleted |
| Mailbox.LastSentIsServed | pkg/synchronizer/async.go:64-67 | with any number of producers the same holds of the update sent last |
| Mailbox.NewestServedLastExactly | pkg/synchronizer/async.go:64-67 | so the newest update is the one attempted last if and only if it was the one sent last |
| Mailbox.ServedInOrder | pkg/synchronizer/async.go:64-67 | with one producer updates are served in increasing order, and every drained or obsoleted one is older than the newest |
| Mailbox.TwoProducersLoseTheNewest | pkg/synchronizer/async.go:61-69 | a run of two producers that becomes idle after serving only the older of two updates, the newest having been drained |
| Mailbox.AtMostOneMoreAttempt | pkg/synchronizer/synchronizer.go:43-50 | while a newer update stays queued the one in service is attempted at most once more, and only if its check had already been passed |
| Mailbox.RetriedWhileReplacing | pkg/synchronizer/async.go:64-67 | for every n, a run in which an update is attempted n times after a newer one was queued, because the channel is empty between drain and send |
| PushCycle.CacheAgreesStep | pkg/synchronizer/synchronize-device.go:327-350 | every step of an attempt keeps the cache in agreement with ONOS for the fabrics that are not in doubt |
| PushCycle.UnacknowledgedPush | pkg/synchronizer/synchronize-device.go:343-346 | a push that takes effect but is reported as failed breaks that agreement if and only if the fabric was not in doubt and the cache holds another netconfig for it |
| PushCycle.DoubtsFoundedStep | pkg/synchronizer/synchronize-device.go:343-350 | every step keeps the doubts founded: with partial updates, the cache entry of a fabric in doubt differs from what ONOS holds |
| PushCycle.DoubtsHeldStep | pkg/synchronizer/synchronize-device.go:343-350 | and ONOS holds what the doubtful push built |
| PushCycle.HitIsExact | pkg/synchronizer/cache.go:22-30 | for a deterministic fabric built completely, being satisfied with the cache leaves ONOS right if and only if the cached netconfig is the one ONOS holds |
| PushCycle.CacheKeyInjective | pkg/synchronizer/cache.go:23-23 | different fabrics have different cache keys |
| PushCycle.SuccessSettles | pkg/synchronizer/synchronize-device.go:419-468 | an attempt, in any order of fabrics, that finishes without push failures leaves at ONOS what it built for every fabric, or something else where it hit a doubtful entry, and at every switch its chassis configuration |
| PushCycle.FailuresCounted | pkg/synchronizer/synchronize-device.go:460-467 | in every run of an attempt the failures counted are as many as the requests that were not reported to have succeeded |
| PushCycle.SettledGoodExactly | pkg/synchronizer/synchronize-device.go:419-468 | what it left of a well-keyed fabric is right if and only if the build that ONOS holds left out no eligible switch and was of a configuration that translates alike |
| PushCycle.HoldsRightSame | pkg/synchronizer/synchronize-device.go:419-468 | if it was of the same configuration, if and only if it left out no eligible switch |
| PushCycle.CompletenessIsExact | pkg/synchronizer/synchronize-device.go:309-313 | a netconfig accepted by ONOS is one of the whole fabric if and only if the build left out no eligible switch |
| PushCycle.UnchangedFabricHits | pkg/synchronizer/synchronize-device.go:327-330 | an unchanged deterministic fabric that is cached is rebuilt to an equal netconfig and takes the branch that pushes nothing |
| PushCycle.SuccessFillsCache | pkg/synchronizer/synchronize-device.go:348-348 | an attempt without failures or invalidations leaves every fabric of its configuration in the cache |
| PushCycle.WithoutCache | pkg/synchronizer/synchronize-device.go:327-350 | apart from a hit, a step is enabled and has the same effect whatever the cache holds and whether or not it is enabled |
| PushCycle.ColdStep | pkg/synchronizer/synchronize-device.go:327-350 | started on a cache that is empty, or has only outdated netconfigs with host names in it, an attempt never hits it, and the fabrics it has pushed are those it has reached, each once |
| PushCycle.DatedStep | pkg/synchronizer/util.go:131-142 | until the counter wraps, every step keeps all synthetic loopbacks, in the cache and at hand, older than the counter, and a netconfig with a host name that is at hand different from the cached one |
| SidStore.SidsUnique | pkg/store/store.go:92-118 | for any number of replicas, interleavings, failures and crashes, if initialization precedes allocation and the counter stays below 2^32: SIDs of different switches differ and lie in 101..counter |
| SidStore.AnswersUnique | pkg/store/store.go:92-118 | the same of everything Get ever returned, even if the switch has another SID by now |
| SidStore.LateInitializationBreaksUniqueness | pkg/store/store.go:39-51 | a run in which a replica sets back a counter that another one has advanced, and two switches share SID 101 |
| SidStore.ResetIsFatal | pkg/store/store.go:44-51 | from any reachable state with a stored SID, a replica about to set the counter can make another switch get that SID |
| SidStore.TruncationBreaksUniqueness | pkg/store/store.go:110-117 | past 2^32 a single replica stores the same SID twice |
| SidStore.WrapIsFatal | pkg/store/store.go:110-117 | from every state reached with timely initialization in which some SID is stored, any replica can go on until another switch gets that SID |
| SidStore.SidsOnlyAdded | pkg/store/store.go:98-117 | if no lookup misses a switch that another replica is allocating for, a stored SID never changes in any continuation of the run |
| SidStore.SidsStable | pkg/store/store.go:98-117 | and all successful Gets of a switch, on whatever replicas, return the same SID |
| SidStore.ToldSidsStand | pkg/store/store.go:98-117 | what Get has answered is what the store says ever after |
| SidStore.OverlapIsFatal | pkg/store/store.go:98-117 | from every state reached with timely initialization, a lookup that misses a switch another replica is allocating for leads to two different answers for it and a SID that changes |
| SidStore.OverlapBreaksStability | pkg/store/store.go:98-117 | for example, two overlapping Gets of a new switch, although both replicas initialized in time |
| SidStore.CodecRoundTrip | pkg/store/store.go:80-89 | decoding an encoded SID gives it back |
| SidStore.CodecRoundTripBack | pkg/store/store.go:80-89 | encoding a decoded four-byte value gives it back |
| SidStore.LittleEndian | pkg/store/store.go:80-89 | the first byte is the lowest one: dropping it divides the SID by 256 |
| SidStore.ViewOfPut | pkg/store/store.go:113-115 | storing the bytes of a SID is, seen through the codec, storing the SID |
| SidStore.FetchAnswers | pkg/store/store.go:92-118 | a Get of a switch with an ID succeeds if and only if all the remote operations it makes do |
| SidStore.FetchRun | pkg/store/store.go:92-118 | however its operations end, a Get is a run of the protocol |
| SidStore.SIDAtomixStore.Open | pkg/store/store.go:32-64 | opening succeeds if and only if finding the counter, reading it, setting it if it is below 100 and finding the map all do; it stops at the first failure; the counter is set to 100 exactly if the set operation is made and takes effect; it is a run of the protocol |
| SidStore.SIDAtomixStore.Get | pkg/store/store.go:92-118 | it succeeds if and only if the ID is not empty, the read succeeds, and the switch is stored or both the increment and the put succeed; the counter moves exactly if the increment is made and takes effect, the map exactly if the put does; it returns the stored SID, leaves every other switch's SID alone, and is a run of the protocol |
| Fabrics.NetConfigDetermined | pkg/synchronizer/synchronize-device.go:293-325 | two builds of a well-keyed fabric with IP literals and routes that are alike give the same netconfig, whatever the order of iteration |
| Builds.NetConfigUnique | pkg/synchronizer/synchronize-device.go:293-325 | these conditions are exact: until the counter wraps, a later build of the same switches with the same SIDs is sure to give the same netconfig if and only if they hold |
| Builds.RebuiltDevices | pkg/synchronizer/util.go:131-142 | two builds, one after the other, give the same devices if and only if the management addresses are IP literals |
| Builds.DrawnAll | pkg/synchronizer/synchronize-device.go:301-317 | whatever the SID store answers: devices with host names get distinct numbers between the readings before and after, no more than remain, and an eligible switch is left out only if the store did not answer for it, or it has a host name and more than 256 addresses have been drawn |
| Builds.DrawsAreIssued | pkg/synchronizer/util.go:131-142 | a build draws exactly what the corresponding sequence of visits draws |
| Builds.BuildNumbers | pkg/synchronizer/synchronize-device.go:193-195 | the devices of a build that have host names have loopbacks drawn during the build, pairwise distinct until the counter wraps |
| Builds.NeverRebuilt | pkg/synchronizer/util.go:131-142 | until the counter wraps, a netconfig with a host name in it is never built again, from the same configuration or any other |
| Builds.Rebuilt | pkg/synchronizer/synchronize-device.go:293-325 | one without host names can be built again at any reading of the counter, without drawing |
| Builds.BuildUsesUp | pkg/synchronizer/util.go:131-142 | a build uses up as many of the remaining numbers as it has devices with host names, and from reading 255 on it has none |
| Fabrics.PortsDetermined | pkg/synchronizer/synchronize-device.go:204-210 | the Ports map does not depend on the order of iteration |
| Fabrics.EveryPortKept | pkg/synchronizer/synchronize-device.go:63-63 | every translated port is in the Ports map with its own interface; none overwrites another |
| Fabrics.PortsCounted | pkg/synchronizer/synchronize-device.go:204-210 | the Ports map has exactly one entry for each translated port |
| Fabrics.RoutesDetermined | pkg/synchronizer/synchronize-device.go:274-290 | two builds have the same routes up to order, and the same list if the routes are alike |
| Fabrics.RoutesShown | pkg/synchronizer/synchronize-device.go:268-290 | the routes pushed are exactly those with a prefix and an address, as many as there are, each with its own, and there is no application without routes |
| Fabrics.PortsBelongToDevices | pkg/synchronizer/synchronize-device.go:200-210 | every key device:X/n of Ports has its device:X in Devices |
| Fabrics.InterfaceIntegrity | pkg/synchronizer/synchronize-device.go:35-61 | a translated port has one interface, with the port's name and VLANs; every VLAN on it is in the switch's VLAN table, and its addresses are the untagged VLAN's subnets followed by those of the tagged VLANs in order |
| Fabrics.TranslatedExactly | pkg/synchronizer/synchronize-device.go:28-57 | a port is translated if and only if its cage is in the model and all its VLANs are in the switch's VLAN table |
| Fabrics.PortIdInjective | pkg/synchronizer/util.go:107-117 | a printed port key determines the switch, whatever its ID contains, and cage and channel for cages up to 99 |
| Fabrics.PortIdBoundIsExact | pkg/synchronizer/util.go:107-117 | and 99 is the exact bound |
| Fabrics.PortNumber | pkg/synchronizer/util.go:107-112 | in base 100 the port number gives cage and channel back for cages up to 99, and what carries over beyond; without a cage it is the channel; it is at most 25755, so that 16 bits do not wrap |
| Fabrics.PortsDecode | pkg/synchronizer/util.go:114-117 | each key of the Ports map of a well-keyed fabric is device:S/d for a switch S, and the digits d give in base 100 the cage and channel of the port of S whose interface is found there |
| Fabrics.MoreSids | pkg/synchronizer/synchronize-device.go:171-174 | allocating further SIDs does not make a netconfig wrong |
| Fabrics.CoverageVisible | pkg/synchronizer/synchronize-device.go:200-200 | which switches a netconfig covers can be read off it |
| Fabrics.AlikeExactly | pkg/synchronizer/synchronize-device.go:293-325 | a netconfig of one well-keyed configuration is one of another if and only if, for the switches in it, the two agree on all that a netconfig shows, and have the same valid routes |
| Fabrics.GrpcEndpointInjective | pkg/synchronizer/util.go:149-152 | the management address printed for a device determines address and port, whatever characters the address contains |
| Fabrics.GrpcEndpointReads | pkg/synchronizer/util.go:149-152 | and it is these two between the fixed parts, the port in digits |
| Fabrics.ChassisExact | pkg/synchronizer/synchronize-device.go:257-263 | a chassis configuration has exactly the ports whose cage is in the model and whose starting bandwidth, if needed, is a number |
| Fabrics.ChassisDecodes | pkg/synchronizer/synchronize-device.go:71-149 | for cages in 1..99 and channels up to 100: the cages and channels in a chassis configuration are exactly those of the ports that translate, the number and the name of each entry say its own cage and channel, and its speed is that of its port or the starting bandwidth |
| Fabrics.ChassisIdsDistinct | pkg/synchronizer/synchronize-device.go:120-146 | its port IDs are pairwise distinct for cages in 1..99 and channels up to 100 |
| Fabrics.StratumIdBoundIsExact | pkg/synchronizer/synchronize-device.go:127-133 | and these bounds are exact |
| Net.LoopbacksRunOut | pkg/synchronizer/util.go:131-142 | until the counter wraps, the synthetic loopbacks of any sequence of switches are increasing, at most 255, and at most 128 |
| Net.ExactlySoMany | pkg/synchronizer/util.go:131-142 | complete switches with host names get exactly 128 from a fresh counter, and the later ones none |
| Net.MacInjective | pkg/synchronizer/util.go:124-128 | router MACs agree only if the last four bytes of the loopbacks do |
| Net.MacReads | pkg/synchronizer/util.go:124-128 | a router MAC is two zero bytes and, in upper-case hexadecimal pairs, these four bytes |
| Net.SyntheticReads | pkg/synchronizer/util.go:139-139 | a synthetic address is 192.168.55. and the digits of the counter |
| Net.LoopbackPool.ManagementAddressToIP | pkg/synchronizer/util.go:131-142 | a literal is returned as it is; anything else gets the next synthetic address and advances the counter modulo 2^32 |
| Net.LoopbackPool.AddressToMac | pkg/synchronizer/util.go:119-129 | the MAC of the last four bytes of the address, or of the synthetic address drawn for it while that is a dotted quad, and an error beyond |
| Text.SlashKeyInjective | pkg/synchronizer/util.go:114-117 | text, slash and decimal number determine both, whatever the text |
| Text.PairInjective | pkg/synchronizer/util.go:114-117 | text, separator and decimal number determine both, whatever the text |
| Text.DecimalReads | pkg/synchronizer/util.go:116-116 | reading the printed digits gives the number back, and there are no leading zeros |
| Text.DecimalInjective | pkg/synchronizer/util.go:116-116 | decimal printing is injective |
| Text.ParsePrinted | pkg/synchronizer/synchronize-device.go:103-108 | parsing printed digits gives the number back if it fits 64 bits, and an error otherwise |
| Text.LessMeans | pkg/synchronizer/synchronize-device.go:299-299 | one key sorts before another if and only if it is a proper prefix of it or has the smaller character at the first difference |
| Text.SortedKeys | pkg/synchronizer/synchronize-device.go:294-299 | the keys of a map, sorted, each once |
| Text.SortedUnique | pkg/synchronizer/synchronize-device.go:294-299 | sorting makes the order independent of the iteration that collected the keys |
| Translate.LookupSwitchModel | pkg/synchronizer/lookup.go:22-31 | gives the model of a switch exactly if it names one that the fabric has, and not by an empty ID |
| Translate.HandleSwitchPort | pkg/synchronizer/synchronize-device.go:24-69 | sets exactly one entry of Ports, or leaves the netconfig as it was if the cage or a VLAN is unknown |
| Translate.HandleSwitchPorts | pkg/synchronizer/synchronize-device.go:204-210 | for any order of the ports, adds exactly the translated ones and keeps all other entries |
| Translate.SwitchAddresses | pkg/synchronizer/synchronize-device.go:176-198 | the router MAC agrees with the loopback, a success on a host name draws exactly two synthetic addresses, and each failure is given when and only when it applies |
| Translate.HandleSwitch | pkg/synchronizer/synchronize-device.go:151-230 | adds exactly one device, right for its switch and with the SID that the store answered, with its ports, or leaves the netconfig exactly as it was; the store is asked exactly for managed switches with a driver, and its answer decides |
| Translate.AddDevice | pkg/synchronizer/synchronize-device.go:200-227 | enters the device under its key, adds the translated ports, and pairs it if there is exactly one pairing port |
| Translate.HandleRoute | pkg/synchronizer/synchronize-device.go:268-290 | appends a valid route to the route application, creating it if need be; an invalid one changes nothing |
| Translate.HandleRoutes | pkg/synchronizer/synchronize-device.go:319-325 | the routes are the valid ones, each once, in some order |
| Translate.BuildNetConfig | pkg/synchronizer/synchronize-device.go:293-325 | what it asks of the SID store, what it draws, and which switches become devices, is what the model says, as a function of the configuration, the counter, the content of the store and how its operations end; an eligible switch is left out only if the store did not answer for it, or it has a host name and the synthetic addresses have run out; the numbers drawn are pairwise distinct, lie between the readings of the counter before and after, and are limited by what remains of the 128 |
| Translate.AllAnswered | pkg/synchronizer/synchronize-device.go:171-174 | only switches that the store is asked for are answered, and all that have an ID are if every operation of the store succeeds |
| Translate.NothingMissed | pkg/synchronizer/synchronize-device.go:309-313 | if also the synthetic addresses suffice, or none is needed, a build leaves out no eligible switch |
| Translate.HandleStratumSwitchPort | pkg/synchronizer/synchronize-device.go:71-149 | appends exactly one port, or leaves the chassis configuration alone if the cage is unknown or the bandwidth is no number |
| Translate.HandleStratumSwitch | pkg/synchronizer/synchronize-device.go:232-266 | for any order of the ports, builds a chassis configuration of exactly this switch |
| StratumPushes.KnownOfSorted | pkg/synchronizer/synchronize-device.go:367-384 | the switches with a known model keep the sorted order of the keys |
| StratumPushes.PushedOneMore | pkg/synchronizer/synchronize-device.go:408-413 | a push extends the prefix of switches that hold their own chassis configuration by one, or ends the fabric without touching any other switch |
| Synchronizer.Synchronizer.CacheCheck | pkg/synchronizer/cache.go:22-30 | true exactly if the entry exists and is equal |
| Synchronizer.Synchronizer.CacheUpdate | pkg/synchronizer/cache.go:33-36 | sets exactly that entry |
| Synchronizer.Synchronizer.CacheInvalidate | pkg/synchronizer/cache.go:39-41 | empties the cache and nothing else, as a step of the model |
| Synchronizer.Synchronizer.CacheDelete | pkg/synchronizer/cache.go:44-49 | removes exactly that entry |
| Synchronizer.Synchronizer.SynchronizeFabricToOnos | pkg/synchronizer/synchronize-device.go:293-351 | builds once; if partial updates are enabled and the cache holds an equal netconfig, no request is made, nothing changes and the result is 0; otherwise exactly one request is made, with the netconfig built, ONOS holds it if and only if the request takes effect, and the cache holds it and the result is 0 if and only if it is reported; a run of the attempt model with the same requests; every eligible switch missing from the build is one that the SID store did not answer for or that came too late for a synthetic address |
| Synchronizer.Synchronizer.SynchronizeFabricToStratum | pkg/synchronizer/synchronize-device.go:366-417 | one request for each switch with a known model, in sorted order, up to the first that is not reported to have succeeded; the result is 0 exactly if all were; each switch holds a chassis configuration of its own ports only |
| Synchronizer.Synchronizer.SynchronizeDevice | pkg/synchronizer/synchronize-device.go:419-468 | for any order of the fabrics, a run of the attempt model with the same requests; an error exactly if a lookup of a controller fails, which ends it, and otherwise the number of requests that were not reported to have succeeded; one lookup for each fabric dealt with; builds are told the SIDs of the store, and all of them are complete if every operation of the store succeeds and the synthetic addresses suffice; netconfigs that were in the cache are never written to |
| Synchronizer.Synchronizer.Drain | pkg/synchronizer/async.go:25-36 | empties the channel and takes as many off the busy count |
| Synchronizer.Synchronizer.DeepCopy | pkg/synchronizer/async.go:40-51 | an equal configuration made of new objects only, or an error exactly if one of the trees cannot be copied |
| Synchronizer.Synchronizer.Enqueue | pkg/synchronizer/async.go:39-70 | increments the busy count, then drains, then sends: the channel holds exactly a private copy of the configuration, so that later changes by the caller do not reach it; or an error and no change, exactly if it cannot be copied |
| Synchronizer.Synchronizer.Dequeue | pkg/synchronizer/async.go:73-76 | takes the queued update off the channel and into service |
| Synchronizer.Synchronizer.Complete | pkg/synchronizer/async.go:79-81 | takes the update in service off the busy count |
| Synchronizer.Synchronizer.NewUpdatesPending | pkg/synchronizer/async.go:85-87 | true exactly if the channel is not empty |
| Synchronizer.Synchronizer.IsIdle | pkg/synchronizer/async.go:91-93 | true exactly if nothing is queued, being queued or in service |
| Synchronizer.Synchronizer.Synchronize | pkg/synchronizer/synchronizer.go:27-39 | a deletion changes nothing, a forced update empties the cache before it is enqueued, and every other one ends as the only queued update, or in an error exactly if it cannot be copied |
| Synchronizer.Synchronizer.Attempt | pkg/synchronizer/synchronizer.go:50-59 | one attempt: an error exactly if a lookup fails, and otherwise the number of requests not reported to have succeeded; recorded as such, and followed by success, abandonment or sleep |
| Synchronizer.Synchronizer.SynchronizeAndRetry | pkg/synchronizer/synchronizer.go:42-68 | attempts the update, sleeps after every attempt that fails to push something, and attempts again, until an attempt returns (0, nil) or an error, or something newer was queued during the last sleep; then, and only then, it is obsoleted, and that newer configuration is what is queued; an update that is obsolete from the start is not attempted; it is left sleeping only after one more failed attempt than there are sleeps; the push errors of all attempts are as many as the requests not reported to have succeeded |
| Synchronizer.Synchronizer.Sleep | pkg/synchronizer/synchronizer.go:66-66 | what the gNMI server asks for meanwhile is queued unless it is a deletion or cannot be copied, and empties the cache if it is forced |
| Synchronizer.Synchronizer.Loop | pkg/synchronizer/synchronizer.go:71-82 | serves one update per round, all rounds unless the channel is empty or an update is left sleeping, which is only after one more failed attempt than it had sleeps; once blocked the synchronizer is idle, its last attempt was one at the newest configuration, and if that succeeded, every operation of the SID store succeeded and no address was missing since it began, and it hit no stale cache entry, the controllers hold that configuration with the SIDs of the store |

## Left out

- The REST and gNMI pushers and the topology lookup (pkg/synchronizer/restpusher.go, pkg/synchronizer/gnmipusher.go, pkg/synchronizer/lookup.go:53-95) are network clients: a push is applied, refused, or applied without acknowledgement, and a controller is found or not. How each request, lookup and operation of the SID store ends is an input (`Controllers.ends`, `Controllers.found`, `SIDAtomixStore.ends`), numbered in the order in which they are made.
- The entry point, flags, metrics, logging, and the model description served over gNMI.
- Serialisation (JSON, protobuf text, ygot): taken to be total and to lose nothing. What is pushed is the structure itself.
- net.ParseIP: a parameter, of which only its treatment of the dotted quads the adapter prints is used (`Net.Conforms`; `Net.SomeParserConforms` shows that there is such a parser).
- Constant fields of the chassis configuration (node, slot, platform, administrative state) and the choice of secure transport.
- Atomix internals: the counter and the map are atomic, a missing key is reported as such, and stored values have four bytes.
- ygot's deep copy: gives an equal new tree, or fails, according to the tree (`GoStruct.copyable`).
- Go's memory model: every operation on the cache, the channel and the counter is one atomic step.
- The addresses of controllers: ONOS is identified by the fabric and a Stratum switch by fabric and key, so a controller that moves or is shared is not modelled.
- Nil dereferences: display names, cages, channels and switch IDs are always there, and a switch with a known model has a management address when its chassis configuration is pushed (`StratumPushes.AllManaged`), because the original logs its absence and then dereferences it.
- Switch pairing: the pair device of a switch is its own ID, as in the code, so there is no symmetry to prove.
- HandleDelete, which is a stub.
- Liveness and real time: the results are about what holds in every run, however long it is.
- Synchronizer.Synchronizer.SynchronizeAndRetry: follows the retries for as long as its argument describes what happens during the sleeps, which is any number of them, and then leaves the update sleeping, because an environment that keeps failing keeps it busy for ever.
- Synchronizer.Synchronizer.Loop: serves a given number of rounds, which is any number, and blocks when the channel is empty; other goroutines call it only during sleeps, while Adapter.dfy has them interleave at every step.
- Mailbox.BusyConserved: counts in unbounded integers; the bound 2n + 2 says that 32 bits suffice.
- SIDs in a netconfig: those the build was told, as one map. The result that they are the store's is `Adapter.ConvergesWithStore`, under its condition on lookups.
- PushCycle.CompletenessIsExact: is about well-keyed fabrics only, since otherwise one device may hide another.
