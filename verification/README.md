# Verification of the Nacos operator's merge library and reconciler

The Nacos operator turns a `Nacos` resource into a StatefulSet, services and a job, lets the user lay a pod
specification of their own over the one it builds, and keeps a status with an event log. This project models two
parts of it in Dafny and proves what they promise for every input and every run:

* the **override-merge library**, which lays one pod specification over another list by list;
* the **reconciler**: one reconcile step with its panics and recovers, the health check, the status and its event
  log, and the writes of StatefulSets and Services to a versioned API server.

`dafny verify dfyconfig.toml` checks everything.

## How the model is laid out

| files | what they hold |
|---|---|
| `Text`, `Sorting`, `KeyedMerge`, `MergeLaws` | Go string order, `sort.SliceStable`, ranging over a map in an arbitrary order, the keyed merge and its algebra, each proved once for every list |
| `StringUnion`, `PodModel`, `ContainerLaws`, `ContainerMerge` | containers and the lists in them |
| `AliasMerge`, `VolumeMerge`, `VolumeLaws`, `VolumeAssociativity`, `VolumeSharing`, `VolumesInPlace`, `VolumesAgain`, `ClaimMerge`, `PodSpecMerge`, `OrderIndependence`, `OverrideWins` | host aliases, volumes on values and on the heap with any sharing, claims, whole pods, what no map order can change, and what a merge does to every single field |
| `CustomResource`, `EventLog`, `ServerList`, `Health`, `HealthLaws`, `Reconciler`, `ReconcilerLaws` | the resource, its status and events, the server list and leader parser, the check, the reconcile step and its runs |
| `StatefulSetStore`, `JointRuns`, `ServiceStore`, `ClusterPod` | writes to the API server, reconcile steps and the StatefulSet store together, and the pipeline from the resource to the StatefulSet |

A Go map is a `map`, and ranging over it is an arbitrary choice (`:|`) from the keys left, so every result about a
merged list holds for every order. Loops stay loops: each is a method proved against a function of its inputs, and
the laws are proved about that function. Volume sources are heap objects that the merge writes through, as the
pointers in the program are. A panic is a second way for a call to end (`Outcome`): with an operator error, which
carries a code, or with anything else, which is only logged. Beside its laws every operation has a statement of its
answer in fields, told without the function that computes it. The API server, the clock, the pods and the answers of
the Nacos servers are inputs of a step, and may be anything.

## What came out false, and exactly when it holds

* **Containers and map order.** Mounts are keyed by name, path and sub-path joined by `_`, so different mounts can
  collide. `Containers` has one result for all orders of all ranges, the inner ones included, if and only if for each
  name of both lists the merged mounts that share a key are equal (`ContainersOrderIndependentIff`);
  `MountOrderCanShow` gives two mounts and one override for which the order shows. Defaults without an underscore
  cannot collide with any override (`PlainDefaultsAreOrderIndependent`), and the mounts the operator builds have none
  (`BuiltPodIsDetermined`), so for it the result is always determined.
* **Reapplying an override** is not always a no-op: an override-only container is first copied as it is, and an entry
  with both a value and a reference loses the value only when combined. `ContainersReapplyIff` says exactly when one
  application is enough, `ReapplyCanMove` gives a container for which it is not; a second one always is
  (`ContainersStabilise`). For volumes it is the unmerged duplicates that matter (`VolumesReapplyIff`); with new names that come once nothing moves, on the heap either (`VolumesTwice`),
  and otherwise superseded overrides are written by the second merge and nothing moves after it (`VolumesOnceMore`,
  `VolumesThrice`).
* **Volumes are not associative** across kinds of source: a middle volume of another kind takes away what the first
  would still show. With one volume per name and one source each they associate exactly when it takes nothing away
  (`VolumesAssociativeIff`, `MiddleTakesAway`), and so do whole pods (`PodSpecAssociativeIff`).
* **Merging in place** is not always the merge of the values, since what one turn writes is seen through every pointer
  to it. `VolumesInPlace.Volumes` tells the result for any sharing. Unless a default shares an object with an override
  in use (`OverrideSharedShows`), the result is the merge of the values if and only if, wherever two merged defaults
  that keep their pointers point to one object, their merges put the same into it: one override on one of two sharers
  breaks it unless it says nothing new (`OneOverriddenIff`), and overrides on both do unless they come to the same
  (`BothOverriddenIff`).
* **Host aliases are not associative** in general: duplicates in an override accumulate while duplicates in a default
  replace each other. They associate around a middle list exactly when its duplicates are harmless
  (`AliasesAssociativeIff`, `DuplicatesCanHarm`).
* **A record's first appearance can be later than its last change.** A new record reads the clock twice, the last
  change first; `RecordInOrderIff` says this goes wrong exactly when a record is opened behind another while the
  clock ticks, and `TickShows` gives two calls.
* **The leader is read back** from a printed host exactly when the resource's name has no dot
  (`LeaderReadBackIff`); Kubernetes allows dots in the name.
* **The StatefulSet can be stuck.** Calls converge, whatever was stored before, if and only if the desired object is
  usable and the stored one, if any, can be compared with it (`CanSettleIff`). A claim created without a storage class
  cannot: the next call ends in a nil dereference and so does every later one, whether the user leaves the class
  unset (`SecondCallFaultsIff`) or sets it afterwards (`ClassSetLater`). In both cases, while the mode is a known one, no
  reconcile stores anything from then on: Running is not reached, and a Running stored earlier is never taken back (`ClassUnsetFreezes`,
  `ClassSetLaterFreezes`). `RunningReachableIff` says exactly when Running can be reached at all.
* **`CreateOrUpdateService` never rests**: every successful call writes a new version, unlike the StatefulSet's
  (`EveryCallWrites`).
* **A sidecar can hide changes.** The comparison looks at the first container, and the merge sorts by name: with a
  wrapper container whose name is smaller, no change of environment or resources is acted on
  (`ChangeMissedIff`, `SidecarHides`).
* **Fewer than one replica** in cluster mode is a slice out of range, not an operator error (`ServerList.PrintServers`).
* The event log's limit is named 10 in the code, but it holds up to eleven records (`LogTellsHistory`).

## Model

| member | source | states |
|---|---|---|
| ContainerLaws.ContainersAssociative | operator/pkg/util/merge/merge.go:51-144 | for all lists whose mounts keep their keys where they meet, laying `c` over (`b` over `a`) is laying (`c` over `b`) over `a`, through every nested list |
| ContainerLaws.ContainersReapplyIff | operator/pkg/util/merge/merge.go:57-78 | where merged mounts keep their keys, as those over the built defaults do, a second application of an override changes nothing iff every override container with a default has no new entry setting both value and reference, and every one without a default is already in merged shape |
| ContainerLaws.ReapplyCanMove | operator/pkg/util/merge/merge.go:57-78 | an override-only container with one variable that has both a value and a reference, for which a second application does change something |
| ContainerLaws.ContainersStabilise | operator/pkg/util/merge/merge.go:51-79 | the third application of any override equals the second |
| ContainerLaws.ContainerReapplyIff | operator/pkg/util/merge/merge.go:89-144 | for one container laid over another twice only the environment can still move, and exactly when |
| ContainerLaws.ContainerSelfIff | operator/pkg/util/merge/merge.go:89-144 | a container merged with itself is itself iff its four keyed lists are strictly sorted and no environment entry sets both forms |
| ContainerLaws.ContainerAssociative | operator/pkg/util/merge/merge.go:89-144 | three containers of one name combine associatively, field by field and list by list |
| ContainerLaws.EnvsReapplyIff | operator/pkg/util/merge/merge.go:328-340 | reapplying environment entries changes nothing iff each override entry with both forms set has a default |
| ContainerLaws.EnvsAssociative | operator/pkg/util/merge/merge.go:299-340 | the environment merge is associative on whole lists |
| ContainerLaws.PortsAssociative | operator/pkg/util/merge/merge.go:365-413 | the port merge is associative on whole lists |
| ContainerLaws.DevicesAssociative | operator/pkg/util/merge/merge.go:250-297 | the device merge is associative on whole lists |
| ContainerLaws.MountsAssociative | operator/pkg/util/merge/merge.go:424-494 | the mount merge is associative on lists whose merged entries keep their keys |
| ContainerLaws.MountsReapply | operator/pkg/util/merge/merge.go:424-494 | reapplying mounts changes nothing when merged entries keep their keys |
| ContainerLaws.FaithfulKeepKeys | operator/pkg/util/merge/merge.go:454-466 | mounts told apart by their keys keep them |
| ContainerLaws.ProbeAssociative | operator/pkg/util/merge/merge.go:147-183 | probes, absent ones included, combine associatively |
| KeyedMerge.OrderIndependentIff | operator/pkg/util/merge/merge.go:441-450 | "range over a map, then sort stably" has one outcome over all orders iff values that share a sort key are equal |
| KeyedMerge.WellKeyedOutcome | operator/pkg/util/merge/merge.go:299-326 | when each value carries its map key, that one outcome is the values in key order |
| KeyedMerge.SortedRangeIsListing | operator/pkg/util/merge/merge.go:69-77 | sorting any enumeration of a well-keyed map gives the same list |
| Text.LessIff | operator/pkg/util/merge/merge.go:74-76 | the order sorted by is that of the first differing character, or of the shorter string |
| KeyedMerge.MergeByKey | operator/pkg/util/merge/merge.go:299-326 | the shared loop shape (two indexes, combine, range, sort) yields an outcome of the pointwise combined map, and the listing when well keyed |
| KeyedMerge.IndexLast | operator/pkg/util/merge/merge.go:342-348 | an index holds, under each key, the last entry of the list that has it |
| MergeLaws.MergeContents | operator/pkg/util/merge/merge.go:299-326 | a merged list is strictly sorted, has the keys of both lists only, and under each the combination of the last duplicates |
| MergeLaws.MergeAssociative | operator/pkg/util/merge/merge.go:299-326 | any keyed merge is associative when the combination is, on the keys all three lists have |
| MergeLaws.ReapplyIff | operator/pkg/util/merge/merge.go:299-326 | reapplying any keyed override changes nothing iff each entry settles at once |
| MergeLaws.SelfMergeIff | operator/pkg/util/merge/merge.go:299-326 | a list merged with itself is unchanged iff strictly sorted with settled entries |
| Sorting.SliceStableSorts | operator/pkg/util/merge/merge.go:320-324 | the sort gives a sorted permutation that keeps entries of one key in order |
| Sorting.SortInjective | operator/pkg/util/merge/merge.go:548-550 | two lists with the same keys in the same places are sorted to one list only if they are equal |
| OrderIndependence.EnvsOutcome | operator/pkg/util/merge/merge.go:299-326 | every map order gives this one environment list, whose keys and values are those of the last duplicates |
| OrderIndependence.PortsOutcome | operator/pkg/util/merge/merge.go:388-413 | the same for ports |
| OrderIndependence.DevicesOutcome | operator/pkg/util/merge/merge.go:250-284 | the same for devices |
| OrderIndependence.MountsOutcome | operator/pkg/util/merge/merge.go:424-466 | the same for mounts whose merged entries keep their keys |
| OrderIndependence.TolerationsOutcome | operator/pkg/util/merge/merge.go:497-525 | the same for tolerations, the override replacing its namesake whole |
| OrderIndependence.ContainersOrderIndependentIff | operator/pkg/util/merge/merge.go:51-87 | the containers come out the same for every order of the outer and of all inner ranges iff, for each name of both lists, merged mounts that share a key are equal |
| OrderIndependence.ContainersListed | operator/pkg/util/merge/merge.go:51-87 | when merged mounts keep their keys, the pure merge is the only outcome, with the keys of both lists and the last duplicates merged |
| OrderIndependence.PlainDefaultsAreOrderIndependent | operator/pkg/util/merge/merge.go:454-456 | default mounts without an underscore cannot collide: whatever the override, the pure merge is the only outcome |
| OrderIndependence.PlainKeepKeys | operator/pkg/util/merge/merge.go:454-456 | default mounts without an underscore keep their keys under every override |
| OrderIndependence.ClaimsOutcome | operator/pkg/util/merge/merge_statefulset.go:130-166 | the same for claim templates |
| OrderIndependence.AliasesOutcome | operator/pkg/util/merge/merge_podtemplate_spec.go:190-224 | one outcome for every order: sorted by address, and per address the last default's names followed by those of every override entry |
| ContainerMerge.Envs | operator/pkg/util/merge/merge.go:299-326 | the loops compute the environment merge the laws are about |
| ContainerMerge.VolumeDevices | operator/pkg/util/merge/merge.go:250-276 | the loops compute the device merge |
| ContainerMerge.VolumeMounts | operator/pkg/util/merge/merge.go:424-452 | the result is one of the possible outcomes, and the listing when merged entries keep their keys |
| ContainerMerge.MountsOrderIndependentIff | operator/pkg/util/merge/merge.go:424-457 | mount merging is independent of map order iff values sharing a key agree |
| ContainerMerge.MountOrderCanShow | operator/pkg/util/merge/merge.go:454-456 | concrete mounts for which it is not |
| ContainerMerge.ContainerPortSlicesByName | operator/pkg/util/merge/merge.go:388-413 | two ranges appending to one slice, in any order, give the keyed merge by port name |
| ContainerMerge.Tolerations | operator/pkg/util/merge/merge.go:497-517 | writing overrides straight into the default index gives the keyed merge that replaces |
| ContainerMerge.OverlayContainer | operator/pkg/util/merge/merge.go:89-144 | the field updates give the merged container, up to the order of colliding mounts |
| ContainerMerge.Containers | operator/pkg/util/merge/merge.go:51-79 | one container per name, in name order, each merged from the last duplicates; exactly the pure merge when merged mounts keep their keys |
| OverrideWins.ContainersWin | operator/pkg/util/merge/merge.go:51-79 | for every order of every range: sorted by name, the names of both lists and no others; a container of one list is that list's last of its name, one of both has every field the override sets, and the default's fields elsewhere |
| OverrideWins.ContainerOutcomeWins | operator/pkg/util/merge/merge.go:89-144 | the same of two containers, for every possible outcome: each scalar field, command and arguments, resources, each entry of ports, environment, mounts and devices, each probe field, lifecycle and security context; `envFrom` is never touched |
| OverrideWins.EnvsWin | operator/pkg/util/merge/merge.go:299-340 | entry by entry: the override's reference, else its value, else what was there, and never two forms at once from a merge |
| OverrideWins.PortsWin | operator/pkg/util/merge/merge.go:365-413 | entry by entry: each port field the override sets wins |
| OverrideWins.MountsWin | operator/pkg/util/merge/merge.go:424-494 | the same for mounts that keep their keys |
| OverrideWins.ProducedMounts | operator/pkg/util/merge/merge.go:424-494 | with collisions too, every key of both lists is stood for by its merge, and nothing else is in the list |
| OverrideWins.DevicesWin | operator/pkg/util/merge/merge.go:250-297 | the same for devices |
| OverrideWins.TolerationsWin | operator/pkg/util/merge/merge.go:497-517 | a toleration of both lists is the override's, whole |
| ContainerMerge.SomeOutcome | operator/pkg/util/merge/merge.go:51-79 | for any two lists the relation the results are stated with has an outcome |
| StringUnion.StringSlices | operator/pkg/util/merge/merge.go:13-22 | the loop computes the ordered union |
| StringUnion.UnionContents | operator/pkg/util/merge/merge.go:13-22 | the first list is a prefix, no element is lost or invented, and nothing appended repeats |
| StringUnion.UnionAssociative | operator/pkg/util/merge/merge.go:13-22 | the ordered union is associative |
| StringUnion.UnionIdempotent | operator/pkg/util/merge/merge.go:13-22 | a second union with the same list changes nothing |
| AliasMerge.HostAliases | operator/pkg/util/merge/merge_podtemplate_spec.go:190-224 | the loops compute the accumulating merge |
| OverrideWins.AliasesWin | operator/pkg/util/merge/merge_podtemplate_spec.go:190-224 | sorted by address; under each the last default's names, or else the first override's, first and unchanged, then every missing name of the overrides of this address, each once, and no other |
| AliasMerge.AliasesAssociativeIff | operator/pkg/util/merge/merge_podtemplate_spec.go:190-224 | merging associates around a middle list, for all outer lists, iff its duplicates are harmless |
| AliasMerge.UniqueHarmless | operator/pkg/util/merge/merge_podtemplate_spec.go:190-224 | unique addresses are enough for that |
| AliasMerge.DuplicatesCanHarm | operator/pkg/util/merge/merge_podtemplate_spec.go:190-224 | two entries of one address that break it |
| AliasMerge.AliasesIdempotent | operator/pkg/util/merge/merge_podtemplate_spec.go:190-224 | applying the same aliases again changes nothing, always |
| VolumesInPlace.Volumes | operator/pkg/util/merge/merge.go:527-552 | for any sharing of source objects: which pointers come out, and what every object holds afterwards; where no default shares with an override in use but its own, the result is the merge of the old values iff sharers agree; where sharing is safe it always is, no override changes, and each default is left with the merged source |
| VolumesInPlace.OverlayNext | operator/pkg/util/merge/merge.go:532-538 | one turn: the merged volume's pointers, and what is then seen through every volume of both lists |
| VolumesInPlace.PointersShow | operator/pkg/util/merge/merge.go:527-552 | the values behind the returned pointers are those the turns leave |
| VolumeSharing.ListInPlaceIff | operator/pkg/util/merge/merge.go:527-552 | the whole list shows the merge of the values iff, wherever two merged defaults keep a pointer to one object, their merges put the same into it |
| VolumeSharing.InPlaceIff | operator/pkg/util/merge/merge.go:532-538 | the same, default by default |
| VolumeSharing.AllDue | operator/pkg/util/merge/merge.go:566-598 | when sharers agree, every object holds after every turn the merge of the last default that wrote it, or its old value |
| VolumeSharing.SafeAgrees | operator/pkg/util/merge/merge.go:527-552 | defaults that share only what they write back agree |
| VolumesInPlace.OneOverriddenIff | operator/pkg/util/merge/merge.go:566-571 | two defaults on one source, the first overridden: the in-place merge is right iff the override says nothing new |
| VolumesInPlace.BothOverriddenIff | operator/pkg/util/merge/merge.go:566-571 | both overridden: it is right iff the two merges are equal |
| VolumesInPlace.OverrideSharedShows | operator/pkg/util/merge/merge.go:566-571 | an override that shares an object with a default of another name is changed |
| VolumeMerge.OverlayVolume | operator/pkg/util/merge/merge.go:554-608 | one volume, for any sharing of the two: the result's value, and every object written, told from the old values |
| VolumeMerge.MergeKeyToPathItems | operator/pkg/util/merge/merge.go:618-664 | items, in whatever order they come out, form the key-to-item map of the pure merge |
| VolumeLaws.MergedLength | operator/pkg/util/merge/merge.go:527-552 | the result has the default volumes plus the override entries no default is named like, sorted by name |
| OverrideWins.MergedVolumesWin | operator/pkg/util/merge/merge.go:527-608 | name by name: one volume per default with the last override of its name laid over it, or the overrides of a new name as they are; a source of one kind on both sides is merged field by field and item by item, a secret keeps its own `optional`, any other override is taken whole |
| VolumeLaws.VolumesReapplyIff | operator/pkg/util/merge/merge.go:527-608 | applying the same volumes again changes nothing iff each new override already says, field by field, all its last namesake says |
| VolumeLaws.SaysIff | operator/pkg/util/merge/merge.go:554-608 | laying one volume over another changes nothing iff every field it sets, every item with its path and mode included, is there already |
| VolumeLaws.DistinctNamesAgree | operator/pkg/util/merge/merge.go:527-552 | overrides with one volume per name always meet that condition |
| VolumesInPlace.VolumesTwice | operator/pkg/util/merge/merge.go:527-608 | on the heap: merged a second time, through pointers now shared with the override, volumes whose new names come once are what they were after the first, and the override is unchanged |
| VolumesAgain.VolumesOnceMore | operator/pkg/util/merge/merge.go:527-608 | on the heap, whatever the names: the second merge returns the merge of the values once more, and changes exactly the overrides whose new name comes again later, each to what the last of its name puts over it |
| VolumesAgain.VolumesThrice | operator/pkg/util/merge/merge.go:527-608 | on the heap, whatever the names: the third merge returns what the second did |
| VolumesInPlace.SharedDefaultsShow | operator/pkg/util/merge/merge.go:566-571 | two turns on one object: both volumes end with the second override's medium, so the first is not its own merge |
| VolumeAssociativity.VolumesAssociativeIff | operator/pkg/util/merge/merge.go:527-608 | lists with one volume per name and one source each merge associatively iff no middle volume of another kind takes away anything the last would leave of the first |
| VolumeAssociativity.MiddleTakesAway | operator/pkg/util/merge/merge.go:554-608 | a memory volume, a secret and a volume with a size limit, which do not associate |
| VolumeAssociativity.VolumeAssociativeIff | operator/pkg/util/merge/merge.go:554-608 | the same for three volumes of one name |
| VolumeAssociativity.MergeIsKeyed | operator/pkg/util/merge/merge.go:527-552 | with one volume per name in each list the volume merge is the keyed merge of the other lists |
| VolumeLaws.VolumesStabilise | operator/pkg/util/merge/merge.go:527-608 | on values, the third application equals the second, whatever the volumes |
| VolumeLaws.VolumeReapply | operator/pkg/util/merge/merge.go:554-608 | one volume laid over another a second time changes nothing |
| PodSpecMerge.PodSpecs | operator/pkg/util/merge/merge_podtemplate_spec.go:10-132 | for any sharing of volumes: every field but the volumes is the override's where it sets it and the default's elsewhere, selector by key, lists by entry; where no default shares with an override in use but its own and mounts keep their keys, the pod is the merge of the old values iff sharers agree; where sharing is safe it is, the override's volumes unchanged |
| PodSpecMerge.PodIsWon | operator/pkg/util/merge/merge_podtemplate_spec.go:10-132 | the fields in detail: a key of the override's selector has its value, every other key the default's, and there is no further key; likewise affinity, DNS and each setting |
| PodSpecMerge.PodSpecAssociativeIff | operator/pkg/util/merge/merge_podtemplate_spec.go:10-132 | given mounts that keep their keys, harmless middle aliases and proper volumes, whole pods merge associatively iff their volumes do |
| PodSpecMerge.PodSpecAssociative | operator/pkg/util/merge/merge_podtemplate_spec.go:10-132 | every field but the volumes merges associatively whatever the volumes |
| PodSpecMerge.PodSpecReapplyIff | operator/pkg/util/merge/merge_podtemplate_spec.go:10-132 | on values, laying a pod over another a second time changes nothing iff its container lists are safe and its new volumes agree with their last namesakes field by field |
| PodSpecMerge.PodSpecStabilises | operator/pkg/util/merge/merge_podtemplate_spec.go:10-132 | on values, the third application of a pod equals the second |
| PodSpecMerge.PodDNSConfig | operator/pkg/util/merge/merge_podtemplate_spec.go:226-249 | absent configurations are kept or taken whole, name servers and searches united |
| PodSpecMerge.DNSAssociative | operator/pkg/util/merge/merge_podtemplate_spec.go:226-249 | the DNS merge is associative, absent configurations included |
| PodSpecMerge.TolerationsAssociative | operator/pkg/util/merge/merge.go:497-517 | the toleration merge is associative |
| ClaimMerge.VolumeClaimTemplates | operator/pkg/util/merge/merge_statefulset.go:130-158 | the loops compute the keyed merge of claims |
| ClaimMerge.PersistentVolumeClaim | operator/pkg/util/merge/merge_statefulset.go:168-204 | the field updates give the merged claim, access modes as an ordered union |
| OverrideWins.ClaimsWin | operator/pkg/util/merge/merge_statefulset.go:130-204 | claim by claim: each field the override sets wins, name and metadata stay, access modes are the default's followed by the missing ones |
| ClaimMerge.ClaimsAssociative | operator/pkg/util/merge/merge_statefulset.go:130-204 | claim templates merge associatively |
| ClaimMerge.ClaimsReapply | operator/pkg/util/merge/merge_statefulset.go:130-204 | applying the same templates again changes nothing |
| ReconcilerLaws.RunningWasEarned | operator/controllers/nacos_controller.go:96-108 | in every run, a stored Running was stored by a turn that had the StatefulSet's replicas equal the resource's, at least half the pods ready, and every ready pod listing exactly `replicas` servers, all up and agreeing on the leader; nothing was stored since |
| ReconcilerLaws.StepOkIff | operator/controllers/nacos_controller.go:80-109 | a step succeeds iff it starts past None, all resources are ensured, the evidence is complete and the write goes through; success is the same as storing Running |
| ReconcilerLaws.RetriedUnlessRunning | operator/controllers/nacos_controller.go:57-78 | an existing instance is left alone only by the turn that stored Running; every other turn comes back in five seconds, a failing handler included |
| ReconcilerLaws.PhaseSafety | operator/pkg/service/operator/operaror.go:68-81 | over every run the stored phase is never Scaling and never returns to None |
| ReconcilerLaws.PhaseStep | operator/controllers/nacos_controller.go:128-147 | from None no resource is touched and only Creating can follow; Creating becomes Failed only three minutes after creation |
| ReconcilerLaws.FailedIff | operator/controllers/nacos_controller.go:138-142 | Failed is stored iff an operator error arises past None, out of the grace period, and the write succeeds |
| ReconcilerLaws.OtherPanicStoresNothing | operator/controllers/nacos_controller.go:143-146 | a step ended by any other panic stores nothing |
| ReconcilerLaws.EventsAreLog | operator/pkg/service/operator/Status.go:32-54 | over every run the stored events are the log of the events whose write succeeded |
| ReconcilerLaws.EventsOverRuns | operator/pkg/service/operator/Status.go:58-97 | over every run records claim success only for code 200, follow one another in time and tell the recent history; at most eleven, at least ten once that many changes of code were stored |
| ReconcilerLaws.EventsInOrder | operator/pkg/service/operator/Status.go:58-97 | over every run with one clock reading per turn, each record appeared no later than it last changed |
| ReconcilerLaws.TwoGoodTurnsRun | operator/pkg/service/operator/operaror.go:68-92 | from any stored status, two turns with full evidence end in Running |
| Reconciler.Reconcile | operator/controllers/nacos_controller.go:57-78 | calls made, status stored and answer given, for every fetch result |
| Reconciler.ReconcileWork | operator/controllers/nacos_controller.go:80-109 | the nested recovers: what is stored, which calls are made and what is returned, for every panic, one inside the handler included |
| Reconciler.GlobalExceptHandle | operator/controllers/nacos_controller.go:128-147 | what is stored, the status in memory, and that the handler itself panics iff the code is the normal one and the write fails |
| Reconciler.MakeEnsure | operator/pkg/service/operator/operaror.go:41-66 | exactly the planned calls up to the first that fails, or the parameter error |
| ReconcilerLaws.StandaloneCalls | operator/pkg/service/operator/operaror.go:41-53 | a step with kind "standalone" or none calls for the StatefulSet and its service, the config map before them iff a config is given, the two mysql calls after them iff asked for, and nothing else |
| ReconcilerLaws.ClusterCalls | operator/pkg/service/operator/operaror.go:54-62 | with kind "cluster" it calls for the clustered StatefulSet, the headless and the client service, in this order, with the same calls around them |
| ReconcilerLaws.NoCalls | operator/pkg/service/operator/operaror.go:63-65 | any other kind, a missing instance or one in None makes no call |
| ReconcilerLaws.BrokenCallIsLast | operator/controllers/nacos_controller.go:96-106 | a call that breaks is the last one made, and the step stores nothing |
| ReconcilerLaws.FirstStored | operator/pkg/service/operator/operaror.go:73-76 | the first status stored of an instance is its old one with phase Creating |
| ReconcilerLaws.FailureStored | operator/pkg/service/operator/Status.go:45-54 | a stored failure has an event of code 301 for an unknown kind, -1 for replicas or ready pods, 401 for the servers' answers, and conditions and version as far as the check came |
| ReconcilerLaws.RunningStores | operator/pkg/service/operator/Status.go:32-37 | a stored Running has an event of code 200 without message and one condition per ready pod |
| ReconcilerLaws.Answers | operator/controllers/nacos_controller.go:57-78 | a missing instance ends the matter, a failed fetch is an error, anything short of Running comes back in five seconds |
| Reconciler.PreCheck | operator/pkg/service/operator/operaror.go:68-81 | None becomes Creating and panics with the normal code; every other phase passes |
| Reconciler.UpdateStatusRunning | operator/pkg/service/operator/Status.go:32-37 | event, phase and stored status, and the panic when the write fails |
| Reconciler.UpdateExceptionStatus | operator/pkg/service/operator/Status.go:45-54 | event, phase and stored status; a failed write is swallowed |
| EventLog.UpdateLastEvent | operator/pkg/service/operator/Status.go:58-97 | shift, overwrite and append, as one function of the old events |
| EventLog.RecordTells | operator/pkg/service/operator/Status.go:58-97 | one call in fields: of more than ten records the oldest goes; a repeated code renews last change and message of the newest record only; another code gets its own record with both readings; the very first record has no status |
| EventLog.LogRefinesFullLog | operator/pkg/service/operator/Status.go:56-97 | the bounded log is, record for record, the end of the unbounded one; at most eleven, at least ten once ten were there |
| EventLog.FullLogCompresses | operator/pkg/service/operator/Status.go:77-95 | the unbounded log's codes are the run-compressed codes of the calls |
| EventLog.LogTellsHistory | operator/pkg/service/operator/Status.go:56-97 | the log's codes are the end of the compressed history, with no equal neighbours |
| EventLog.LogEndsWithLastCall | operator/pkg/service/operator/Status.go:77-95 | the newest record has the last call's code and message |
| EventLog.LogTimes | operator/pkg/service/operator/Status.go:58-97 | each record last changed no later than the next appeared, for any clock that does not go back |
| EventLog.RecordInOrderIff | operator/pkg/service/operator/Status.go:83-94 | a call keeps "appeared no later than last changed" iff it opens no record behind another or the two clock readings are equal |
| EventLog.LogInOrder | operator/pkg/service/operator/Status.go:58-97 | with one reading per call every record is in order |
| EventLog.TickShows | operator/pkg/service/operator/Status.go:87-92 | two calls after which a record is not |
| EventLog.StatusMeansSuccess | operator/pkg/service/operator/Status.go:58-97 | a record claims success only for the success code |
| ServerList.PrintServers | operator/pkg/service/operator/Kind.go:848-854 | the loop prints the entries joined by single spaces, or fails for fewer than one replica |
| ServerList.ReadDomain | operator/pkg/service/operator/Kind.go:840-846 | the last non-empty DOMAIN_NAME, else the default domain |
| ServerList.ServersRoundTrip | operator/pkg/service/operator/Kind.go:848-860 | splitting the printed list on spaces gives back exactly one entry per replica, all different |
| ServerList.EntriesDistinct | operator/pkg/service/operator/Kind.go:850-853 | entries of different replicas differ, whatever the names |
| ServerList.LeaderReadBackIff | operator/pkg/service/operator/Check.go:79-91 | a printed host with any port is read as its own pod iff the name has no dot |
| ServerList.LeaderNameTells | operator/pkg/service/operator/Check.go:79-86 | the name read is all before the first dot behind a first character, else all before the first colon, else the whole |
| ServerList.HostReads | operator/pkg/service/operator/Kind.go:850-853 | split on dots, a printed host is the pod, the headless service, the namespace, "svc" and the domain |
| ServerList.EntryReads | operator/pkg/service/operator/Kind.go:850-853 | an entry is a host and port 8848, its pod the name and the number that reads back |
| ServerList.DomainTells | operator/pkg/service/operator/Kind.go:840-846 | the domain is the last non-empty DOMAIN_NAME, else cluster.local |
| Health.GetStatefulSetReadPod | operator/pkg/service/k8s/statefulset.go:68-85 | the nested loops append exactly the ready pods, in order |
| Health.ReadyPodsExact | operator/pkg/service/k8s/statefulset.go:68-85 | every ready pod is returned as often as it is listed, and no other pod is |
| Health.ReadyInOrder | operator/pkg/service/k8s/statefulset.go:74-83 | and they keep the order of the listing |
| Health.IsReadyIff | operator/pkg/service/k8s/statefulset.go:75-82 | ready means the first condition of type Ready is true |
| Health.CheckKind | operator/pkg/service/operator/Check.go:32-50 | the panics and the pods returned, for every StatefulSet and pod list |
| Health.KindPassesIff | operator/pkg/service/operator/Check.go:42-49 | the check passes iff replicas agree and twice the ready pods reach the replicas |
| Health.KindFails | operator/pkg/service/operator/Check.go:32-45 | a missing StatefulSet or replica count is a fault, differing replicas or too few ready pods an operator error of code -1 |
| Health.PassingChecksMeet | operator/pkg/service/operator/Check.go:42-49 | for an odd number of replicas any two checks that pass, over pods of one set of names, have returned a common pod |
| Health.PassingChecksMayMiss | operator/pkg/service/operator/Check.go:42-49 | for two replicas two passing checks need not |
| Health.CheckNacos | operator/pkg/service/operator/Check.go:52-95 | the nested loops compute the scan: conditions, version and the first failure, also when they stop halfway |
| HealthLaws.CheckCompletesIff | operator/pkg/service/operator/Check.go:56-72 | it completes iff every answer is complete and up and the flattened leaders agree |
| HealthLaws.AgreedShape | operator/pkg/service/operator/Check.go:63-69 | agreement means empty reports followed by one name only |
| HealthLaws.ConditionOfScan | operator/pkg/service/operator/Check.go:73-92 | one condition per ready pod, in order, told from the leaders read up to that pod |
| HealthLaws.ConditionTells | operator/pkg/service/operator/Check.go:73-92 | of each ready pod a completed check writes its IP as instance, its name, its node, status "true" and "leader" or "follower" |
| HealthLaws.VersionOfScan | operator/pkg/service/operator/Check.go:70 | it leaves the version of the last server read |
| HealthLaws.FailedScan | operator/pkg/service/operator/Check.go:56-92 | a check that fails leaves the conditions of the pods before the one it failed at |
| HealthLaws.LeaderMarkedIff | operator/pkg/service/operator/Check.go:79-91 | a pod is called leader iff it is the agreed leader's pod and that leader was known by then |
| HealthLaws.AtMostOneLeader | operator/pkg/service/operator/Check.go:79-91 | with distinct names at most one pod is called leader |
| HealthLaws.LeaderNamedAtOnce | operator/pkg/service/operator/Check.go:79-91 | if the very first report names a leader, exactly the pod it names is called leader |
| HealthLaws.PrintedLeaderMarks | operator/pkg/service/operator/Check.go:79-91 | when the agreed leader is printed host `i`, only pod `name-i` can be called leader |
| JointRuns.RunningMeansSettled | operator/controllers/nacos_controller.go:96-108 | over every run of reconcile steps on one store, from a new instance or a truthful Running, with one usable desired StatefulSet and no other writer: as long as the stored phase is Running, the stored StatefulSet agrees with the desired one |
| JointRuns.RunningLeavesAgreement | operator/controllers/nacos_controller.go:96-108 | a turn that stores Running wrote its StatefulSet or found it agreeing, with the resource's replicas |
| JointRuns.RunningInThree | operator/controllers/nacos_controller.go:57-109 | from any status, and any store that is not stuck, three turns in which nothing fails end in Running |
| JointRuns.StuckFreezes | operator/pkg/service/k8s/statefulset.go:154-195 | where comparing stored and desired faults, no run of reconcile steps changes store or status once the phase has left None |
| JointRuns.ClassUnsetFreezes | operator/pkg/service/k8s/statefulset.go:189-191 | so it is after a claim was created without a storage class and left so |
| JointRuns.ClassSetLaterFreezes | operator/pkg/service/k8s/statefulset.go:189-191 | and after the class is given later |
| JointRuns.RunningReachableIff | operator/controllers/nacos_controller.go:57-109 | with one desired object, some run of turns ends in Running iff the phase is Running already, or the object asks for replicas and comparing the stored one with it, if any, does not fault |
| JointRuns.JointRunsAreRuns | operator/controllers/nacos_controller.go:57-109 | runs of a new instance on the store are runs of the reconciler, so all that is proved of these holds there |
| StatefulSetStore.CanSettleIff | operator/pkg/service/k8s/statefulset.go:108-132 | some run of calls makes stored and desired agree iff the desired object is usable and the stored one, if any, is not stuck |
| StatefulSetStore.TwoCallsSettle | operator/pkg/service/k8s/statefulset.go:108-132 | and then two calls without failures are enough |
| StatefulSetStore.ConvergesInTwo | operator/pkg/service/k8s/statefulset.go:108-132 | whatever was stored and whatever calls fail in between, after two successes stored and desired agree and every later call writes nothing |
| StatefulSetStore.WriteIff | operator/pkg/service/k8s/statefulset.go:108-132 | the exact request and what it leaves: create iff nothing is stored, delete iff the compared claims differ, update iff they agree and anything else compared differs, none iff all agrees; an update leaves the desired object under a new version |
| StatefulSetStore.NoWriteIff | operator/pkg/service/k8s/statefulset.go:108-116 | a call that cannot read, or whose comparison faults, requests nothing |
| StatefulSetStore.NeverLost | operator/pkg/service/k8s/statefulset.go:123-130 | over every run, while the compared claims agree the object is never deleted |
| StatefulSetStore.StuckIff | operator/pkg/service/k8s/statefulset.go:154-195 | comparing faults iff the stored object has no container, or a claim without a class that is otherwise alike, or no replicas with nothing else to change |
| StatefulSetStore.StuckForever | operator/pkg/service/k8s/statefulset.go:154-195 | a stuck store never moves, and every call that reads it faults |
| StatefulSetStore.ClassSetLater | operator/pkg/service/k8s/statefulset.go:189-191 | a claim created without a class and given one later: the object now desired is usable, and every call faults |
| StatefulSetStore.RunProgress | operator/pkg/service/k8s/statefulset.go:108-132 | the successful calls still needed go down by one with each success and by nothing else |
| StatefulSetStore.CallProgress | operator/pkg/service/k8s/statefulset.go:108-132 | the same for one call, for any store: a failed one, a fault included, leaves the store alone |
| StatefulSetStore.NoUpdateWhileClaimsDiffer | operator/pkg/service/k8s/statefulset.go:123-130 | no update request is issued while the claim templates differ in number, or the first ones in resources or in class up to case |
| StatefulSetStore.SecondCallFaultsIff | operator/pkg/service/k8s/statefulset.go:189-191 | after a create, every later call ends in a fault, and changes nothing, iff the object has no container, no replicas, or a claim without a storage class |
| StatefulSetStore.CompareIff | operator/pkg/service/k8s/statefulset.go:154-195 | "no change" means agreement on replicas, first container's environment and resources, and first claim up to case of the class |
| StatefulSetStore.SelfCompareIff | operator/pkg/service/k8s/statefulset.go:154-195 | an object is found equal to itself iff it can be compared at all |
| StatefulSetStore.CheckSts | operator/pkg/service/k8s/statefulset.go:154-171 | the decision, or the nil dereference or index fault, for every pair |
| StatefulSetStore.CheckVolumeClaimTemplates | operator/pkg/service/k8s/statefulset.go:174-195 | no difference iff as many templates, and first ones with the same resources and classes equal up to case; a fault iff these agree but for a class that is missing; a difference otherwise |
| StatefulSetStore.EqualFoldIff | operator/pkg/service/k8s/statefulset.go:191 | classes are equal up to the case of ASCII letters |
| StatefulSetStore.StatefulSetApi.CreateOrUpdateStatefulSet | operator/pkg/service/k8s/statefulset.go:108-132 | result, store and the request issued, for every failure of the API server |
| ServiceStore.AddressNeverChanges | operator/pkg/service/k8s/service.go:77-94 | under any interleaving of calls and deletions one object has one address at any two points of a run |
| ServiceStore.WriteLandsIff | operator/pkg/service/k8s/service.go:77-94 | in every run a write takes effect iff the store still holds what its call read, and then keeps the uid and address read and replaces the rest |
| ServiceStore.OneReplacementPerRead | operator/pkg/service/k8s/service.go:87-93 | of two calls that read the same object at most one replaces it, whatever happens in between |
| ServiceStore.KeptUntilDeleted | operator/pkg/service/k8s/service.go:77-94 | without a deletion the object, its uid and its address stay |
| ServiceStore.EveryCallWrites | operator/pkg/service/k8s/service.go:77-94 | repeated, the call has the desired body from the first time on, keeps object and address, and writes a new version every time: it has no fixed point |
| ServiceStore.ExistingIsLeft | operator/pkg/service/k8s/service.go:58-67 | repeated, the other call leaves an existing service as it is, whatever its body |
| ServiceStore.SoundRun | operator/pkg/service/k8s/service.go:87-93 | over every run, whoever read the current version read the current object |
| ServiceStore.ServiceApi.CreateOrUpdateService | operator/pkg/service/k8s/service.go:77-94 | the call is its get and put steps with other clients' steps in between, and leaves the stored version and address in the object passed |
| ServiceStore.ServiceApi.CreateIfNotExistsService | operator/pkg/service/k8s/service.go:58-67 | the same, except that an existing service is left alone |
| ClusterPod.BuiltContainerSurvives | operator/pkg/service/operator/Kind.go:166-171 | for any wrapper exactly one merged container is named after the resource: the built one, or a merge whose command still starts with the built one |
| ClusterPod.ServersSurviveIff | operator/pkg/service/operator/Kind.go:855-861 | the effective NACOS_SERVERS is the printed list iff the wrapper's last entry for it is absent, sets neither value nor reference, or has the same value and no reference |
| ClusterPod.OwnContainerFirstIff | operator/pkg/util/merge/merge.go:74-76 | the resource's container comes first iff no wrapper container has a smaller name |
| ClusterPod.SidecarIsRaw | operator/pkg/util/merge/merge.go:57-78 | otherwise the first container does not depend on what was built |
| ClusterPod.ChangeMissedIff | operator/pkg/service/k8s/statefulset.go:154-171 | a change that keeps replicas and claims is not acted on iff a smaller wrapper name comes first or the merged containers agree on environment and resources |
| ClusterPod.SidecarHides | operator/pkg/service/k8s/statefulset.go:154-171 | with one sidecar of a smaller name any two built containers are found equal |
| ClusterPod.BuiltPodIsDetermined | operator/pkg/service/operator/Kind.go:656-707 | with the mounts the operator builds, the cluster pod's containers do not depend on any map order, whatever the wrapper mounts |
| ClusterPod.HostnameModeIff | operator/pkg/service/operator/Kind.go:477-493 | PREFER_HOST_MODE is in the environment iff no function mode is set or the user asks for it |
| ClusterPod.OperatorEntriesWin | operator/pkg/service/operator/Kind.go:477-574 | for a variable both set, the entry in effect is one of the operator's |
| ClusterPod.BuildEnv | operator/pkg/service/operator/Kind.go:477-574 | the user's entries unchanged, then the operator's, or the fault for missing replicas |
| ClusterPod.DatabaseEnvTells | operator/pkg/service/operator/Kind.go:524-561 | each database variable has its own setting, and there are no others |
| ClusterPod.ModeEnvTells | operator/pkg/service/operator/Kind.go:477-493 | one entry for the function mode, or one for host names |
| ClusterPod.AuthEnvTells | operator/pkg/service/operator/Kind.go:495-522 | each authentication variable is there iff it is set, with its value |
| ClusterPod.KindEnvTells | operator/pkg/service/operator/Kind.go:563-574 | the mode, or a number of replicas that reads back |
| ClusterPod.OperatorEnvTells | operator/pkg/service/operator/Kind.go:477-574 | the operator's entries are exactly these, and building them faults only for missing replicas |
| ClusterPod.BuildStatefulsetCluster | operator/pkg/service/operator/Kind.go:838-865 | the server list appended to the environment and the waiting command, or the failure for fewer than one replica |
| ClusterPod.WantedTells | operator/pkg/service/operator/Kind.go:838-865 | the built container is the given one under the resource's name, its environment the user's entries, the operator's and the servers, in this order; its command waits for every host of the cluster, which read back from it, and then starts |
| ClusterPod.HostListReads | operator/pkg/service/operator/Kind.go:848-853 | the host list, split on spaces, is every host and an empty rest |
| ClusterPod.EnsureStatefulsetCluster | operator/pkg/service/operator/Kind.go:166-171 | build, cluster, merge and write in one: the store after it and how it ends, and no write when building fails |

## Left out

- VolumesInPlace.Volumes: where a default shares an object with an override in use other than its own, the result is
  told by the turns, but not when it happens to be the merge of the values; `OverrideSharedShows` is an input. The
  operator builds its volumes afresh and reads the override from the API, so this does not arise there.
- VolumesAgain.VolumesOnceMore: asks that no two overrides share an object, as what comes from the API does not.
- VolumeLaws.VolumesReapplyIff: is about values; `VolumesTwice` and `VolumesOnceMore` are its heap side.
- VolumeLaws.VolumesStabilise: is about values; `VolumesThrice` is its heap side.
- PodSpecMerge.PodSpecReapplyIff: is about values, as far as the volumes go.
- PodSpecMerge.PodSpecStabilises: is about values, as far as the volumes go.
- PodSpecMerge.PodSpecAssociative: leaves the volumes out; `PodSpecAssociativeIff` includes them.
- ContainerLaws.ContainersAssociative: asks that merged mounts keep their keys, since otherwise the result need not even be determined.
- ContainerMerge.OverlayContainer: with colliding mounts it leaves the order of the mounts open, as the program does.
- StatefulSetStore.CanSettleIff: takes deletion as immediate and no other writer, and does not model the API server
  refusing a change of an immutable field or filling in defaults; fields the comparison skips are not claimed to converge.
- StatefulSetStore.CompareIff: JSON texts are equal when the values are; the difference between a nil and an empty slice
  is not modelled, and case folding is for ASCII letters.
- ClusterPod.EnsureStatefulsetCluster: the container's remaining fields, the pod's volumes and the claims are inputs, and
  the fixed text of the start script is a parameter.
- ServiceStore.AddressNeverChanges: assumes, as the API server does, that versions and uids are never reused.
- Reconciler.MakeEnsure: each ensure call is reduced to whether it panics; for the StatefulSet `JointRuns` puts the write and the store back in.
- Nil and empty slices are one value everywhere, and strings are sequences of characters.
- Text of formatted error messages, logging and stack traces.
- `EphemeralContainers` and `TopologySpreadConstraints`: unsorted keyed merges that repeat the theorem already proved.
- `LabelSelectorRequirements`, `StatefulSets`, `StatefulSetSpecs` and the deployment merge: not reached by the operator's own pipeline.
- HTTP and JSON decoding of the Nacos cluster answers: the answer is an input.
- The long literals of the job, config map and client service, labels, owner references and field defaults beyond kind and database.
- Helm charts, deployment YAML, SQL, RBAC, generated code and controller wiring.
