# Streamline operator: a verified model

A Dafny model of the protocols, controllers and document transformations of the
Streamline Kubernetes operator, with machine-checked proofs of what they keep.
`dafny verify dfyconfig.toml` checks the whole project.

## What is modelled

**Leader election** (`Lease`, `LeaseProtocol`, `LeaseInvariants`, `LeaseTenure`,
`LeaseExclusion`, `LeaseAnswers`, `LeasePacing`, `LeaderElection`, `LeaseRefinement`).
Any number of replicas share one Lease. Every client call is a read step and a write
step of its own; steps of different replicas interleave freely, a read may answer with
any version written so far, an answer may be lost, and a write may land long after its
sender gave up. A replica that exits may come back under its identity, with writes of
its earlier life still under way. Time is in microseconds on one clock. `LeaseProtocol`
is the machine; `LeaderElection` holds the elector's methods as they are written,
against a server other clients write to in between, and `LeaseRefinement` shows every
call of theirs to be a run of the machine. Tenure and takeover accounting need no timing
assumption. Mutual exclusion holds exactly when ten seconds of sleep plus four calls
stay under sixteen seconds, because expiry compares truncated whole seconds with `>`. A
`renew` that returns true proves the replica's tenure unbroken up to the write that was
acknowledged, whatever the timing, and up to the moment it returns exactly when calls
take less than sixteen seconds.
The comment at `src/main.rs:311` says that a release lets a standby take over at once.
The code clears the holder and leaves the renewal time, so a standby waits as long as it
would have waited for a crash; the model follows the code and
`Lease.ReleaseGivesNoImmediateTakeover` states it.

**Status publication** (`Conditions`, `StatusPublication`). The condition list that is
updated in place, and the rule shared by three controllers: build the status from the
published one, patch it only when it differs. The prior status is arbitrary, with duplicate
or foreign conditions, and so are the clocks. An update acts on the first condition of its
type alone, so a duplicate in a prior status survives it; the model says exactly when that
matters. A status that repeats is not patched, and that is exact: whatever data a message
carries counts. A failed create publishes the text the server answered with, so a server
whose failures never read the same twice has the topic patched at every reconcile.

**Cluster reconcile** (`ClusterSpecs`, `ClusterRender`, `ClusterStatuses`,
`ClusterControllers`). One reconcile is a sequence of writes, each of which may fail before
or after it takes effect: finalizer, HPA cleanup, validation gate, ConfigMap, Services,
StatefulSet, status. An object being deleted loses its claims and the finalizer instead.
Validation asks that a CA Secret is given but not that its name is not blank; the model
follows the code, and states exactly that as the one thing an accepted spec may lack.

**Topic and user reconcile** (`TopicSpecs`, `TopicDocuments`, `TopicSync`, `TopicStatuses`,
`TopicControllers`, `UserControllers`, `Finalizers`). The gate of unsupported settings, the
create and read-back against the Streamline server, the comparison of its answer with the
spec, and the statuses published for every outcome.

**Upgrade patches** (`MergePatch`, `Upgrades`, `ClusterDocuments`). JSON, merge patch as in section 2 of
RFC 7386, structural defaulting for any schema, and the table of the six v0.3.0 defaults.

**Scaling** (`Autoscaling`, `ScaleToZero`). The replica recommender and the idle detector
with its cooldown.

**Operator hub** (`OperatorHubs`, `HubConcurrency`). The registry and the installed map,
whose check and insert happen under different locks.

**Histogram** (`DurationHistograms`). The reconcile-duration buckets, with 64-bit counters
that wrap.

Calls that reach other programs appear as the outcomes they can have (`Prelude.Fault`, or a
reply), clocks as values read, and messages as the data they carry between fixed words.

## Model

| member | source | states |
|---|---|---|
| Lease.ExpiryNeedsSixteenSeconds | src/leader_election.rs:179-191 | A lease of the default duration is expired exactly from the sixteenth full second of its age on |
| Lease.ExpiryIsPersistent | src/leader_election.rs:179-191 | An expired lease stays expired as the clock advances |
| Lease.ReleaseGivesNoImmediateTakeover | src/leader_election.rs:118-149 | A standby that reads a released Lease takes over exactly when it could have taken over the unreleased one |
| Lease.ExpiredExactly | src/leader_election.rs:179-191 | In plain numbers, for every duration: expired means no renewal time, or one at least a full second older than the duration |
| Lease.AcquireDecisionExactly | src/leader_election.rs:156-242 | A replica writes exactly a Lease that is absent, its own or expired; its own keeps acquire time and transitions, another's gets the captured time and one transition more |
| LeaseInvariants.StepKeepsInv | src/leader_election.rs:58-249 | Every step of the machine keeps the invariant on writes, log, tasks and probe flags, whatever the timing |
| LeaseInvariants.ReachableInv | src/main.rs:169-184 | The invariant holds in every reachable state, from any Lease left behind, for any number of replicas, and across restarts under the same identity |
| LeaseInvariants.LandKeepsInv | src/leader_election.rs:214-249 | A write that is accepted was sent at the very version it replaces: a stale read never wins |
| LeaseTenure.RenewTrueMeansUnbrokenTenure | src/leader_election.rs:85-115 | When `renew` returns true, no other identity wrote between the acquisition of this life of the replica and the renewal acknowledged, with no timing assumption |
| LeaseTenure.ReleaseEndsOwnTenure | src/leader_election.rs:118-149 | A release that takes effect follows an unbroken tenure of the releaser and changes the holder alone |
| LeaseTenure.LeaseCountsTakeovers | src/leader_election.rs:214-249 | In every reachable state `lease_transitions` is the number of takeovers that landed, and `acquire_time` the captured time of the write that began the current tenure |
| LeaseTenure.NoEarlyTakeover | src/leader_election.rs:156-191 | No takeover, even of a released Lease, lands before the last renewal time is sixteen seconds old |
| LeaseExclusion.NobodyElseLands | src/leader_election.rs:156-249 | While a replica's acquisition or confirmed renewal is fresh, only its own writes are accepted |
| LeaseExclusion.LeaderIsUncontested | src/main.rs:231-254 | While a replica leads, the last write is its own and the Lease cannot be found expired |
| LeaseExclusion.AtMostOneLeader | src/main.rs:231-254 | With 10 s plus four call bounds under 16 s no reachable state, restarts included, has two leaders |
| LeaseExclusion.ProbesAgreeWithElection | src/health.rs:38-83 | At most one replica answers as leader, it does lead and is ready, and standbys are ready all along |
| LeaseExclusion.TwoLeaders | src/leader_election.rs:156-191 | For every call bound that is too long, a concrete run ends with two leaders |
| LeaseExclusion.BoundIsExact | src/main.rs:231-254 | Mutual exclusion holds if and only if 10 s plus four call bounds stay under 16 s |
| LeaseAnswers.AnswerIsCurrent | src/leader_election.rs:85-115 | With calls under 16 s, nothing but the replica's own writes landed from its acquisition up to the moment `renew` returns true |
| LeaseAnswers.LateAnswer | src/leader_election.rs:85-115 | With slower calls, a run in which a standby took over before the old leader's `renew` returns true |
| LeaseAnswers.AnswersAreCurrentExactly | src/leader_election.rs:85-115 | The claim up to the moment of the answer holds if and only if calls take less than 16 s |
| LeaseAnswers.ConflictIsFinal | src/leader_election.rs:97-115 | Whoever is told of a conflict was beaten to the version it had read, and its write never takes effect, however late it arrives |
| LeasePacing.AttemptsAreSpaced | src/leader_election.rs:58-81 | In every run a replica that is not restarted begins its attempts at least five seconds apart |
| LeasePacing.RenewalsAreSpaced | src/main.rs:231-254 | And its renewals at least ten seconds apart, restarts included |
| LeasePacing.RetryExactly | src/leader_election.rs:58-81 | A failed attempt may be tried again exactly from five seconds after it failed |
| LeaderElection.LeaderElector.UpdateLease | src/leader_election.rs:214-249 | The replace wins exactly at the version read; its answer is true, false on a conflict, or an error when lost |
| LeaderElection.LeaderElector.TryAcquire | src/leader_election.rs:156-177 | Succeeds if and only if both answers arrive, nobody writes in between, and the Lease read is absent, its own or expired; whatever it may claim it claims as stated above, and in every other case it writes nothing |
| LeaderElection.AttemptExactly | src/leader_election.rs:156-249 | The answer of an attempt and the Lease it leaves, for every Lease read, competing write and lost call |
| LeaderElection.LeaderElector.Acquire | src/leader_election.rs:58-81 | The loop ends at the first successful attempt, and only then |
| LeaderElection.LeaderElector.Renew | src/leader_election.rs:85-115 | True exactly when the Lease read names this replica, nobody writes in between and both answers arrive; every other answer is told apart, and only the renewal time ever changes |
| LeaderElection.LeaderElector.Release | src/leader_election.rs:118-149 | Clears the holder exactly when the Lease read names this replica and nobody writes in between |
| LeaderElection.AcquireStopsAtFirstSuccess | src/leader_election.rs:58-81 | The attempts before the last one failed, and the last one succeeded |
| LeaseRefinement.AttemptIsAProtocolRun | src/leader_election.rs:156-177 | For every Lease, competing write and lost call, an attempt is a run of the machine with the same Lease, after which the replica leads on true and waits for its next attempt otherwise |
| LeaseRefinement.RenewIsAProtocolRun | src/leader_election.rs:85-115 | A renewal likewise: the replica goes on leading on true, and stops renewing and drops its leader flag otherwise |
| LeaseRefinement.ReleaseIsAProtocolRun | src/leader_election.rs:118-149 | A release likewise: the same Lease, and a replica that has exited |
| Conditions.ConditionList.Set | src/conditions.rs:94-108 | The in-place update of the list is the function the lemmas below are about |
| Conditions.SetThenFind | src/conditions.rs:94-108 | An update installs or merges at its own type and touches no other type |
| Conditions.SetKeepsOrder | src/conditions.rs:94-108 | Existing conditions keep their places; a new type goes to the end |
| Conditions.TransitionTimeIsTrue | src/conditions.rs:94-108 | After any run on a duplicate-free list: types unique, order kept, reason and message of the latest update, transition time of the latest flip or addition |
| Conditions.TransitionTimeIsLastFlip | src/conditions.rs:94-108 | The transition time is the time of the update that flipped the status and after which none of the type flipped it |
| StatusPublication.RepeatedReconcileIsQuiet | src/controllers/cluster.rs:1032-1077 | From any prior status and for any clocks, a second reconcile on the same inputs builds the identical status |
| StatusPublication.BuildSettles | src/controllers/cluster.rs:1060-1077 | A built status says everything the reconcile meant to say, whatever was there before |
| StatusPublication.SettledBuildIsIdentity | src/controllers/cluster.rs:1032-1058 | A status that already says it all is rebuilt unchanged, timestamps included |
| StatusPublication.LastUpdatedExactly | src/controllers/cluster.rs:1032-1058 | `lastUpdated` moves to the time of the build exactly when there was no status or the body or the conditions changed |
| StatusPublication.LastUpdatedIsLastPatch | src/controllers/topic.rs:656-709 | Over any run it is the time of the last pass whose patch took effect, and that of the prior status when none did |
| StatusPublication.TransitionsExactly | src/conditions.rs:94-108 | An update's condition carries the time at which it was built when it is new or flipped, and the time it had otherwise |
| StatusPublication.KeepExactly | src/controllers/user.rs:182-206 | Seeding keeps every condition of an owned type, duplicates included, and drops the others |
| StatusPublication.AllSayExactly | src/conditions.rs:94-108 | For every prior status, all conditions of an update's type say what it says if and only if the duplicates past the first already did; without duplicates they do |
| StatusPublication.QuietExactly | src/controllers/cluster.rs:980-1006 | From any prior status, a pass after another patches nothing if and only if both set out to say the same |
| StatusPublication.PatchesFollowInputs | src/controllers/cluster.rs:980-1006 | Over any run, with patches lost before or after taking effect, patches number at most the reconciles at which what is to be said changed |
| StatusPublication.PatchesExactly | src/controllers/cluster.rs:980-1006 | When patches take effect they number exactly those changes, save a first one that the prior status already said |
| StatusPublication.Publisher.PatchStatusIfChanged | src/controllers/cluster.rs:980-1006 | Patches exactly when the status differs from the published one |
| StatusPublication.Publisher.Run | src/controllers/topic.rs:656-728 | The loop of reconciles, with its list updates and patches, publishes and counts what the functions say |
| ClusterSpecs.ResolvedExactly | src/crd/cluster.rs:337-402 | An entry resolves exactly when it has a name and one complete source, and to that very source |
| ClusterSpecs.Validate | src/crd/cluster.rs:623-781 | Exactly the justified errors, each once and in order; none exactly for supported specs |
| ClusterSpecs.ErrorsExactly | src/crd/cluster.rs:623-781 | For every spec and every error: it is reported if and only if the spec gives reason for it, with the value seen, and the list is in the source's order |
| ClusterSpecs.UnresolvedExactly | src/crd/cluster.rs:337-402 | The reason an entry is refused for, the first that applies |
| ClusterSpecs.ValidateEnv | src/crd/cluster.rs:623-781 | The loop reports every entry that cannot be mapped, by index and reason |
| ClusterSpecs.EnvErrorsNameTheUnmappable | src/crd/cluster.rs:337-381 | The environment errors are exactly the unmappable entries |
| ClusterSpecs.AcceptedMeansSupported | src/crd/cluster.rs:623-781 | A spec has no errors if and only if every supported-setting condition holds |
| ClusterSpecs.ClusterPatchesClearTheirOwnErrors | src/upgrade.rs:279-301 | The two cluster patches remove exactly the errors of their two fields and leave the rest in order |
| ClusterRender.RenderConfig | src/controllers/cluster.rs:97-127 | A reader of the rendered file finds, under every section and key, exactly the setting of the spec, and nothing under any other |
| ClusterRender.ConfigReadsBack | src/controllers/cluster.rs:97-127 | The same round trip for the lines that the other lemmas are about |
| ClusterRender.TlsSettings | src/controllers/cluster.rs:97-127 | The TLS section names the mounted keypair exactly with TLS enabled and the CA bundle exactly with mTLS |
| ClusterRender.BuildVolumes | src/controllers/cluster.rs:831-890 | The volumes are exactly those with a source, the mounts exactly theirs and the data directory's at their own paths, only the latter is writable, and no name is used twice |
| ClusterRender.VolumesMatchMounts | src/controllers/cluster.rs:831-890 | The same match for the volumes and mounts that the other lemmas are about |
| ClusterRender.BuildEnv | src/controllers/cluster.rs:560-629 | Base entries, then every mappable custom entry in order; as many are dropped as validation reports |
| ClusterRender.EnvironmentAgreesWithConfig | src/controllers/cluster.rs:83-93 | Either mechanism yields the same values: environment and configuration file agree on addresses, data directory and log level unless the spec has an entry of that name |
| ClusterRender.PortsAreTheSpecs | src/controllers/cluster.rs:347-473 | Container and headless Service publish the three ports of the spec under their names, the client Service all but Raft |
| ClusterRender.BuildStatefulSet | src/controllers/cluster.rs:544-797 | The StatefulSet that the loops produce is the one the lemmas are about |
| ClusterRender.TlsPathsMountedExactly | src/controllers/cluster.rs:831-890 | For every spec, accepted or not: all TLS paths in the configuration are mounted read-only from a Secret of their own with a name if and only if no such Secret is missing or unnamed |
| ClusterRender.CustomEnvDropsTheReported | src/controllers/cluster.rs:602-629 | Rendered entries plus reported errors account for every entry |
| ClusterRender.AcceptedEnvInOrder | src/controllers/cluster.rs:602-629 | With every entry mappable, each is rendered once, in order |
| ClusterRender.RenderedEntryIsFaithful | src/controllers/cluster.rs:799-829 | An accepted entry becomes exactly one of its literal or its reference |
| ClusterRender.ValidatedIsFaithfullyRendered | src/controllers/cluster.rs:602-629 | For an accepted spec every TLS path is mounted read-only from its own Secret, each TLS mount exists exactly with its keys, no entry is dropped, and all those Secrets have a name if and only if the CA Secret is not given with a blank one |
| ClusterRender.UnnamedCaIsAccepted | src/crd/cluster.rs:756-762 | An input on which validator and renderer disagree: a blank CA Secret name passes validation and is rendered as a volume without a name |
| ClusterRender.MountsAreSiblings | src/controllers/cluster.rs:831-890 | No mount point lies inside another |
| ClusterStatuses.ConditionsAgree | src/controllers/cluster.rs:1163-1318 | From any prior status, the phase and the first condition of each type agree with each other and with the count of ready brokers |
| ClusterStatuses.ObservedExactly | src/controllers/cluster.rs:1193-1235 | The published counts, generation, phase, and one endpoint for each broker by its place, on the Kafka port |
| ClusterStatuses.ReasonsExactly | src/controllers/cluster.rs:1218-1320 | Each condition gives the reason of its case and the figures it rests on |
| ClusterStatuses.EveryConditionAgrees | src/controllers/cluster.rs:1163-1318 | Every condition of a type agrees with the count if and only if no duplicate in the prior status contradicts it; without duplicates all do |
| ClusterStatuses.RejectionIsVisible | src/controllers/cluster.rs:1008-1126 | From any prior status, a rejected spec is published as failed and the first condition of each type shows it unhealthy |
| ClusterStatuses.NoStaleHealth | src/controllers/cluster.rs:1008-1126 | No condition of a rejected spec shows health if and only if no duplicate in the prior status did; without duplicates none does |
| ClusterStatuses.StaleDuplicateSurvives | src/conditions.rs:94-108 | A prior status from which a second Ready=True survives the rejection |
| ClusterControllers.RejectionsAreToldApart | src/controllers/cluster.rs:207-222 | Two rejected specs are given the same message if and only if they have the same errors in the same order |
| ClusterControllers.RejectionsAreQuietExactly | src/controllers/cluster.rs:980-1030 | A rejection after another publishes nothing if and only if errors, replicas and generation are the same |
| ClusterControllers.HpaIsNeverApplied | src/controllers/cluster.rs:918-944 | For every spec the autoscaling decision is to delete: the branch that applies an HPA is unreachable |
| ClusterControllers.ClusterController.EnsureFinalizer | src/controllers/cluster.rs:253-276 | Adds the finalizer once; success means it is there |
| ClusterControllers.ClusterController.DeleteHpa | src/controllers/autoscaling.rs:338-360 | Success means that no HPA is left; anything but an absent HPA or an answered delete is an error |
| ClusterControllers.ClusterController.ReconcileHpa | src/controllers/autoscaling.rs:292-336 | A disabled block deletes, an enabled one creates or patches |
| ClusterControllers.ClusterController.ReconcileStatefulSet | src/controllers/cluster.rs:507-542 | Patches an object it could read, creates otherwise, and succeeds only when the object is as rendered |
| ClusterControllers.ClusterController.Reconcile | src/controllers/cluster.rs:171-250 | The store after one reconcile of a live object or of one being deleted, for every failure of every call, and when it asks to be called again |
| ClusterControllers.ClusterController.HandleDeletion | src/controllers/cluster.rs:271-336 | Once the claims are listed, exactly those are gone that some effective delete named; the finalizer goes, the others stay in order, and without a listing nothing changes |
| ClusterControllers.DeletedClusterLosesItsClaims | src/controllers/cluster.rs:271-336 | The same of the reconcile of any deleted cluster; with every delete taking effect no listed claim is left |
| ClusterControllers.EachCallExactly | src/controllers/cluster.rs:171-245 | For every store and every loss: each call of a live reconcile takes effect if and only if all before it succeeded and it is not lost, and success means that all did |
| ClusterControllers.ConvergesFromAnyStore | src/controllers/cluster.rs:171-250 | From any store, one fault-free reconcile of a live object leaves no HPA and, for an accepted spec, all four objects as rendered; for a rejected one every workload untouched |
| ClusterControllers.ConvergenceLasts | src/controllers/cluster.rs:171-250 | Later passes on the same spec, on rejected specs or on deletion, however they fail, leave the four objects as rendered |
| ClusterControllers.ConvergesAfterAnyRun | src/controllers/cluster.rs:171-250 | In any run, from the first fault-free reconcile of an accepted spec on and while passes keep to it, the cluster is as rendered and without an HPA |
| ClusterControllers.SuccessIsTruthful | src/controllers/cluster.rs:171-250 | A reconcile that reports success has converged, whatever failed before |
| ClusterControllers.ReconcileIsBounded | src/controllers/cluster.rs:171-250 | However calls fail, a rejected spec touches no workload, no reconcile brings an HPA about, and a deletion touches claims and finalizers alone |
| ClusterControllers.RunsStayOrdered | src/controllers/cluster.rs:219-236 | In every run from an empty store a StatefulSet has one replica and never precedes its ConfigMap and Services |
| ClusterControllers.ConvergedIsStable | src/controllers/cluster.rs:980-1006 | A second fault-free reconcile on the same inputs changes nothing at all |
| Autoscaling.GenerateRecommendation | src/controllers/autoscaling.rs:579-683 | The running value ends at the recommendation, each trigger is listed exactly when its signal moved it, and the confidence follows their number |
| Autoscaling.Recommend | src/controllers/autoscaling.rs:651-658 | The recommendation lies within the limits when they are in order |
| Autoscaling.RecommendationIsLeast | src/controllers/autoscaling.rs:579-658 | In plain numbers: the least count that answers lag, throughput and partitions and is no less than the minimum, or the maximum where that is less |
| Autoscaling.QuietMetricsChangeNothing | src/controllers/autoscaling.rs:579-658 | Without lag, at or below one and a half times the target and with at most a hundred partitions per broker, the count stays within the limits |
| Autoscaling.StableExactly | src/controllers/autoscaling.rs:579-683 | Fed back as current, a recommendation repeats if and only if it neither falls by lag nor rises by throughput at its own value |
| Autoscaling.RecommendationIsAFixpoint | src/controllers/autoscaling.rs:579-683 | With partition awareness off or no throughput, one recommendation is the last |
| Autoscaling.RecommenderCanOscillate | src/controllers/autoscaling.rs:590-649 | With lag and throughput both active it can alternate: ten become one, one becomes ten |
| Autoscaling.FedBack | src/controllers/autoscaling.rs:579-683 | A recommendation fed back rises to what throughput and partitions need, falls to what lag and partitions need, or stays |
| Autoscaling.FeedBackSettles | src/controllers/autoscaling.rs:579-683 | From any count, within three passes the feedback stays at one count or alternates between two |
| Autoscaling.AlternatesExactly | src/controllers/autoscaling.rs:590-649 | Some two counts alternate if and only if, told from metrics and configuration alone, throughput is high at the lean count and lag low at the calm one |
| Autoscaling.RecommendationGrowsWithLag | src/controllers/autoscaling.rs:590-658 | More positive lag never lowers the recommendation, across scale-down, dead band and scale-up, for every configuration on which the code does not panic |
| ScaleToZero.Scaler.Poll | src/controllers/scale_to_zero.rs:212-331 | The loop of evaluate and apply ends in the state the lemmas are about |
| ScaleToZero.TickExactly | src/controllers/scale_to_zero.rs:212-279 | What every tick does: activation, scale to zero, or nothing, with a failed patch or without |
| ScaleToZero.GoesToZeroExactly | src/controllers/scale_to_zero.rs:212-279 | In any run a cluster goes to zero if and only if it is up, enabled, patched, idle, and every activation is at least the cooldown ago |
| ScaleToZero.NoEarlyScaleDown | src/controllers/scale_to_zero.rs:212-279 | No step to zero within the cooldown of any earlier activation or the idle timeout of the last activity |
| ScaleToZero.NoScaleDownSoonAfterActivity | src/controllers/scale_to_zero.rs:543-572 | Nor within the idle timeout of activity seen at any earlier tick |
| ScaleToZero.StaysAtZero | src/controllers/scale_to_zero.rs:212-279 | At zero the cluster stays for as long as nothing new is seen, whatever the cooldown |
| ScaleToZero.ActivityActivates | src/controllers/scale_to_zero.rs:212-279 | The first tick that sees activity activates at once, even inside the cooldown |
| ScaleToZero.OnlyActivityEndsZero | src/controllers/scale_to_zero.rs:212-279 | Nothing but an activation that saw activity ends zero replicas |
| MergePatch.MergeIsIdempotent | tests/upgrade_from_v0_3_0.rs:163-172 | Applying a merge patch twice is applying it once, for every pair of documents |
| MergePatch.CommutationIsAgreement | src/upgrade.rs:277-355 | Two patches commute on every document if and only if they agree on every member they share |
| MergePatch.AnyOrderGivesOneDocument | src/upgrade.rs:277-355 | Patches that agree pairwise give one document in every order |
| MergePatch.PatchLeavesOthers | src/upgrade.rs:148-155 | A leaf patch changes no path that is neither on the way to the leaf nor below it, on every document |
| MergePatch.PatchKeepsBlocks | src/upgrade.rs:148-155 | Where the enclosing blocks are objects they keep all their members but the leaf |
| Upgrades.StoredLeaf | src/upgrade.rs:106-122 | After a patch and any schema's defaulting, a set value is there and a removed key is exactly what the schema defaults it to |
| Upgrades.DefaultsReachOpenBlocks | src/upgrade.rs:17-30 | A nested default reaches exactly the documents whose enclosing blocks are open and whose leaf is missing |
| Upgrades.TableIsConsistent | src/upgrade.rs:277-355 | Each tabled patch writes its own leaf alone, changes the value, removes exactly when nothing is supported, and names its block |
| Upgrades.TabledPatchesCommute | src/upgrade.rs:277-355 | Any two tabled patches commute on every document |
| Upgrades.PatchOrderIsIrrelevant | src/upgrade.rs:277-355 | All the patches of a kind give one document in every order |
| Upgrades.TabledPatchIsFramed | src/upgrade.rs:148-155 | A tabled patch puts its leaf right and touches nothing beside it |
| Upgrades.PatchSticksExactly | src/upgrade.rs:199-209 | For every document and schema, a tabled patch sticks if and only if it sets a value or the schema no longer defaults the key |
| Upgrades.NeedsCorrectedCrdsFirstIsExact | src/upgrade.rs:193-209 | Under v0.3.0 schemas the flagged entries, and no others, come back with the legacy value on every document; under corrected ones every patch sticks |
| Upgrades.ParentTellsWhatWasPersisted | src/upgrade.rs:135-142 | v0.3.0 persisted a top-level default into every spec that left it out and a nested one exactly where the block was open |
| Upgrades.V030TopicIsV030 | src/upgrade.rs:5-30 | The tabled part of the v0.3.0 topic schema meets the description of a v0.3.0 schema |
| Upgrades.V030ClusterIsV030 | src/upgrade.rs:5-30 | And so does that of the cluster schema |
| Upgrades.CorrectedTopicIsCorrected | deploy/crds/streamlinetopic-crd.yaml:41-137 | The topic schema installed now meets the description of a corrected one |
| TopicSpecs.UnsupportedFields | src/controllers/topic.rs:112-226 | Exactly the refused settings, each once and in order; none exactly for supported specs |
| TopicSpecs.EmptyMeansSupported | src/controllers/topic.rs:112-226 | The list is empty if and only if every inert setting is at its default, replication is 1 and partitions are at least 1 |
| TopicSpecs.RejectionsExactly | src/controllers/topic.rs:112-226 | For every spec: exactly the settings asked for that cannot be applied are refused, with the value asked for, in the source's order |
| TopicSpecs.ProvenanceIsHonest | src/upgrade.rs:362-391 | A rejection carries a fix exactly when its field is tabled, and blames v0.3.0 exactly when it saw the value v0.3.0 persisted |
| TopicSpecs.PatchesClearTheirOwnRejections | src/upgrade.rs:302-354 | The four patches turn the list into the same list without the four tabled fields' entries |
| TopicDocuments.PatchedTopicIsCorrected | tests/upgrade_from_v0_3_0.rs:163-172 | Applied in any order to the stored document of any topic, the four patches yield the document of the corrected spec |
| TopicDocuments.DocumentReadsBack | tests/upgrade_from_v0_3_0.rs:163-172 | The round trip: the document a spec is written as decodes to that spec and to no other, but for the order of the free-form overrides |
| TopicDocuments.DefaultingKeepsTheSpec | deploy/crds/streamlinetopic-crd.yaml:41-137 | The defaults the installed schema fills in are those the operator reads: defaulting any topic document leaves its spec as it is |
| ClusterDocuments.PatchedClusterIsCorrected | tests/upgrade_from_v0_3_0.rs:163-172 | Applied in any order to the stored document of any cluster, the two patches yield the corrected settings, change nothing else, and take away exactly their own errors |
| ClusterDocuments.TabledValuesAreTheAcceptedOnes | src/upgrade.rs:279-301 | The table sets exactly the values that validation accepts, and the legacy ones are rejected |
| ClusterDocuments.StoredByV030 | tests/upgrade_from_v0_3_0.rs:209-243 | A cluster that left both settings out under v0.3.0 is rejected for the two defaults and for nothing else |
| ClusterDocuments.ProvenanceIsHonest | src/crd/cluster.rs:629-696 | An error carries the tabled fix exactly for the two settings and blames v0.3.0 exactly for the value it persisted |
| TopicSync.ReportedIsWhatTheBodyHolds | src/controllers/topic.rs:74-90 | A count is reported exactly when the first accepted key with an integer holds it and it fits 32 bits |
| TopicSync.ParsedExactly | src/controllers/topic.rs:66-90 | For every text: which key of which object reports which count |
| TopicSync.EvaluateSync | src/controllers/topic.rs:234-262 | In sync exactly when both counts are confirmed, drift exactly when one is contradicted |
| TopicSync.DriftTellsBoth | src/controllers/topic.rs:234-262 | A drift names exactly the counts that differ, with the value reported and the one asked for |
| TopicStatuses.SyncedIsEarned | src/controllers/topic.rs:604-634 | Synced is true exactly on confirmation and then shows the spec's counts, unknown exactly on a partial answer, and a contradiction always shows as failed |
| TopicStatuses.PublishedExactly | src/controllers/topic.rs:735-945 | Phase, counts, generation and error published for every finding, from any prior status |
| TopicStatuses.ReasonsExactly | src/controllers/topic.rs:735-945 | The reasons of both conditions for every finding |
| TopicStatuses.NoStaleClaims | src/controllers/topic.rs:704-728 | No Synced condition contradicts the finding if and only if no duplicate in the prior status does; without duplicates none does |
| TopicStatuses.TopicStatusIsQuiet | src/controllers/topic.rs:679-702 | The same finding publishes the same status again |
| TopicStatuses.FindingsAreQuietExactly | src/controllers/topic.rs:656-677 | A finding after another publishes nothing if and only if both call for the same status |
| TopicControllers.TopicController.CreateOrUpdateTopic | src/controllers/topic.rs:503-573 | Succeeds if and only if the create was answered with a code from 200 to 299 or with 409; a read follows exactly when that answer reports nothing, and the state is that of the first answer that reports any |
| TopicControllers.TopicController.Reconcile | src/controllers/topic.rs:322-407 | Deletion, finalizer, requests, status, exact success and requeue time for every input and failure; no request for a refused spec |
| TopicControllers.TopicController.HandleDeletion | src/controllers/topic.rs:435-497 | The server is asked once if the cluster is found, and the finalizer goes in any case |
| TopicControllers.FindingsExactly | src/controllers/topic.rs:322-407 | What a reconcile finds out for every spec, cluster and pair of replies |
| TopicControllers.RequeuesExactly | src/controllers/topic.rs:322-407 | When the next reconcile comes for each |
| TopicControllers.SyncedMeansConfirmed | src/controllers/topic.rs:322-407 | A topic is published as synced if and only if its spec is supported, its cluster has a ready broker and an endpoint, the create was answered with 200 to 299 or 409, and both counts were confirmed |
| TopicControllers.CallsAreGated | src/controllers/topic.rs:322-407 | The requests sent for every input: none past the gate or to a cluster that does not serve, a create, and a read-back exactly when a create that was taken reported nothing |
| TopicControllers.TopicPatchesFollowFindings | src/controllers/topic.rs:656-677 | Over any run a topic's status patches number at most the changes in what is found out, the text of failures included, and exactly as many when they take effect |
| TopicControllers.RefusalsAreToldApart | src/controllers/topic.rs:112-226 | Two specs are refused in the same words if and only if they have the same rejections in the same order |
| TopicControllers.FailuresAreQuietExactly | src/controllers/topic.rs:541-563 | A create that fails again patches nothing if and only if the same code and text, or the same reason, came back |
| TopicControllers.VaryingFailuresNeverSettle | src/controllers/topic.rs:554-563 | Failures that never read the same twice in a row have every reconcile but perhaps the first patch the status |
| UserControllers.UserController.Reconcile | src/controllers/user.rs:96-124 | The finalizer only ever comes off, a deleted user gets no status, and success means the published status says unsupported |
| UserControllers.UserController.RemoveFinalizerIfPresent | src/controllers/user.rs:127-156 | Success means that the finalizer is gone and every other one is still there |
| UserControllers.UsersAreNeverReady | src/controllers/user.rs:182-256 | From any prior status a user is published unready and without credentials and foreign conditions are dropped; where the owned ones were not duplicated, exactly two false conditions are left |
| UserControllers.UserStatusIsQuiet | src/controllers/user.rs:182-256 | Reconciling the same user again publishes nothing |
| Finalizers.WithoutRemoves | src/controllers/cluster.rs:308-331 | Filtering takes off every occurrence of one finalizer and keeps each of the others |
| Finalizers.WithoutOfConcat | src/controllers/user.rs:139-143 | Filtering works piece by piece, so the others keep their order |
| OperatorHubs.OperatorHub.constructor | src/controllers/operator_hub.rs:180-231 | The registry is the bundled one and nothing is installed |
| OperatorHubs.BundledExactly | src/controllers/operator_hub.rs:180-231 | The registry holds exactly the five bundled operators, verified, with category and integration |
| OperatorHubs.OperatorHub.Install | src/controllers/operator_hub.rs:258-307 | Undisturbed, an install stays within the limit and installs the registry's version |
| OperatorHubs.InstallExactly | src/controllers/operator_hub.rs:258-307 | Which refusal an install reports, or the record it makes |
| OperatorHubs.OperatorHub.Uninstall | src/controllers/operator_hub.rs:310-325 | Removes the one operator, or reports that it is not there |
| OperatorHubs.OperatorHub.Upgrade | src/controllers/operator_hub.rs:328-358 | Moves an outdated operator to the registry's version and refuses in every other case |
| OperatorHubs.UpgradeExactly | src/controllers/operator_hub.rs:328-358 | Which refusal an upgrade reports, or the record it makes |
| OperatorHubs.OperatorHub.CheckUpdates | src/controllers/operator_hub.rs:367-392 | Lists every outdated operator once, with both versions |
| OperatorHubs.OperatorHub.Stats | src/controllers/operator_hub.rs:395-416 | Counts what `CheckUpdates` lists |
| HubConcurrency.StepKeepsInv | src/controllers/operator_hub.rs:258-358 | Every step of every caller keeps the bound and the versions |
| HubConcurrency.OverInstallIsBounded | src/controllers/operator_hub.rs:277-307 | With k callers in every interleaving, installed plus about to be installed is at most the limit - 1 + k, and nothing under a limit of zero |
| HubConcurrency.OverInstallIsReached | src/controllers/operator_hub.rs:277-307 | For every registry with enough operators, limit and k, an interleaving installs exactly the limit - 1 + k |
| HubConcurrency.OverInstallIsExact | src/controllers/operator_hub.rs:277-307 | For every registry, limit and k, the most ever installed at once is the smaller of the limit - 1 + k and the number of installable operators, and it is reached |
| HubConcurrency.LimitHoldsExactly | src/controllers/operator_hub.rs:277-307 | The limit holds in every interleaving if and only if k is at most 1, the limit is zero, or no more than the limit can be installed |
| HubConcurrency.NothingIsEverOutdated | src/controllers/operator_hub.rs:328-416 | In every interleaving installed versions are the available ones: no update is listed and no upgrade succeeds |
| DurationHistograms.ObservationCountsOnce | src/metrics.rs:278-291 | An observation adds one to the bucket it falls into and to no other |
| DurationHistograms.AtMostExactly | src/metrics.rs:219-241 | The count up to a boundary is the number of observations that do not exceed it |
| DurationHistograms.DurationHistogram.Observe | src/metrics.rs:278-291 | Keeps buckets, sum and count equal to those of the observations so far, modulo 2^64 |
| DurationHistograms.DurationHistogram.Render | src/metrics.rs:219-241 | Each cumulative value is the number of observations up to its boundary, +Inf is the count and the sum the total, modulo 2^64 and exactly while they fit |
| DurationHistograms.ExactWhileItFits | src/metrics.rs:219-241 | Below 2^64 observations the cumulative values are the counts and never decrease |

## Left out

- Lease writers that are not replicas, deletion of the Lease object and two live replicas with one identity: the machine has only the operator's own writes.
- Replicas whose clocks differ: all captures and expiry checks read one clock.
- The controllers' own work between losing the lease and process exit, the moment in which a stopped controller marks its replica unready before the main task notices, the leadership gauge, and `--leader-election=false`.
- `LeaderElection.LeaderElector.Acquire`: retries are bounded by the list of environments given; the five-second wait between them is in the machine.
- Watch caches: a reconcile works on the object as stored; in the source it may be a moment old.
- Server-side apply: a finalizer that is applied is appended to those on the object, and field ownership and conflicts are not modelled.
- ClusterControllers.ClusterController.Reconcile: the call that applies an HPA after the StatefulSet is not written, because `ClusterControllers.HpaIsNeverApplied` proves it unreachable.
- Rendering of resources, storage, probes, scheduling, labels, owner references and image pull policy: data copied without branching.
- Quoting in the configuration file: a value is one token, although the source does not escape a log level that holds a quote.
- The fixed words of messages (the data in them is kept, and joined messages stay lists: two lists whose joined text happens to coincide are told apart), RFC 3339 text, Prometheus text, `kubectl patch` command strings and the upgrade guide.
- Autoscaling: quotients are exact instead of floating point, and casts to 32 and 64 bits are taken to be in range.
- Autoscaling.GenerateRecommendation: the divisions by zero on which the source panics are its precondition, `Panics`, and nothing more.
- KEDA objects, HPA contents and scaling rules: construction without a decision.
- Structural defaulting does not replace explicit nulls of non-nullable fields, which the source does not mention, and pruning of unknown fields is left out.
- Decoding of cluster documents beyond the two tabled settings.
- The order in which the free-form topic overrides are listed is taken from the spec; the source's ordered map sorts them by key.
- HubConcurrency.OverInstallIsBounded: an install's look at the registry and its look at the installed map are one step, because the registry never changes.
- The per-resource counters, the search and listing functions of the hub, and its timestamps beyond the values passed in.
- The schema-only kinds (backup, branch, contract, edge, memory), watch scopes, back-off and the command line.
