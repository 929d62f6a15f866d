# A Dafny model of temporal-operator

temporal-operator is a Kubernetes operator for Temporal clusters. Each of its reconcilers reads
a persisted resource and the outside world, does at most one step of work, and writes status
back. This project models the reconcilers with the most state and proves what holds over
*every run* of them: any interleaving of reconciles, spec edits, outages, Job and Deployment
progress, lost responses and lost status writes.

`dafny verify dfyconfig.toml` checks everything. No theorem rests on a bound or on fuel; where
an assumption about the outside world is needed it is a named predicate in the statement.

## How it is built

Reconciles appear twice. As functions from (spec, persisted status, objects, answers) to what is
left behind, they carry the theorems about runs. In `ClusterReconciler`, `MeshReconciler`,
`WorkflowRunReconciler` and `NamespaceReconciler` they have the source's own form: objects
updated in place, loops, early returns. Each such method is proved equal to its function, so the
theorems hold of the imperative code.

A run is a sequence of worlds joined by steps. A reconcile step carries an `Env`: every answer
the API server, stores, frontends and Temporal servers give during that pass, failures included,
chosen freely. A pass that returns an error, or whose status write conflicts, keeps its effects on
objects and servers and loses its status.

| part | modules |
|---|---|
| cluster lifecycle | `ClusterTypes`, `Persistence`, `Upgrades`, `Controller`, `PersistenceFacts`, `StoreVerdicts`, `PassFacts`, `DeploymentFacts`, `RolloutFacts`, `UpgradeRuns`, `AssignmentRuns`, `UpgradeProgress`, `Lifecycles`, `Mishaps`, `FreshInstalls`, `DatabaseRuns`, `ForeignReadings`, `InspectorProgress`, `ProvisioningProgress`, `ShippedUpgrade`, `ClusterReconciler` |
| version orders | `GoStrings`, `SchemaVersions`, `Versions`, `VersionMatrix`, `VersionQueries`, `VersionRuns` |
| schema Job script | `ShellQuoting`, `SchemaArgs` |
| replication mesh | `Mesh`, `MeshReconciler` |
| workflow runs | `WorkflowRuns`, `WorkflowRunReconciler` |
| namespaces | `Namespaces`, `NamespaceReconciler` |

## Main results

- **No rollout before its schema.** In every run, a service gets an upgrade's target version only if
  a reconcile of that same upgrade record saw every store accept that version, however stale the
  conditions (`UpgradeRuns.SchemaSeenBeforeRollout`). If databases never lose schema versions and
  reports are truthful, a database that was read for it really holds it at that moment, under any
  spec edits (`DatabaseRuns.RolloutNeverPrecedesSchema`; for installs `FreshInstalls.FreshInstallNeverPrecedesSchema`).
- **Version history.** Records go strictly upward along chains of individually allowed moves between
  admitted versions (`VersionRuns.RecordsFollowAllowedChains`); the running version changes in two
  ways only, and an upgrade closes only after every service was seen rolled out
  (`UpgradeRuns.VersionChangesOnlyTwoWays`, `UpgradeRuns.ClosedOnlyAfterRollout`).
- **Liveness.** An upgrade completes within ten productive passes, whatever fails between them, if and
  only if no service ahead is out of the operator's hands (`UpgradeProgress.CompletesExactlyUnlessDoomed`);
  such runs exist from every healthy state, and on the shipped matrix
  (`Lifecycles.UpgradeCanComplete`, `ShippedUpgrade.ShippedUpgradeHappens`). Both stores, direct
  or inspected, provision from any state (`ProvisioningProgress.ProvisioningCompletes`). The inspector never wedges
  (`InspectorProgress.FruitlessHistoriesAreShort`, `InspectorProgress.TwoRoundsSuffice`).
- **Ready is never stale** (`PassFacts.ReadyIsFresh`), and the reported phase says in every run exactly how
  the conditions stand (`RolloutFacts.PhaseTellsExactly`).
- **Stages, outcome by outcome.** Every verdict on a store and every transition of an upgrade is stated
  as an if and only if about the objects and answers found, apart from the functions that compute it
  (`StoreVerdicts.VerdictExactly`, `StoreVerdicts.StageExactly`, `RolloutFacts.WrittenPassMovesExactly`).
- **Round trip.** The POSIX shell reads a quoted argument list back exactly (`ShellQuoting.QuotingRoundTrips`),
  and the list determines the store and task it was made for (`SchemaArgs.ScriptReadsBack`).
- **Mesh.** The verdict is exact and order-free; upserting is a fixpoint, undone by deletion; a failure-free
  pass makes the group ready exactly when everyone who must be was dialed (`Mesh.HealthyMeshIsReadyExactly`).
- **Workflow runs** start once, freeze when finished, are deleted exactly once their TTL has run out since
  the pass that saw them finish, and are let go only after being stopped.
- **Namespaces** converge in one pass, with the exact condition.

## Where a promise does not hold

Each of these has a lemma that says exactly when, and a run or input that shows it.

- The comment on `CompareSchemaVersions` calls the empty version the lowest. It is not below
  versions whose first non-zero component is negative (`EmptyIsNotAlwaysLowest`, `EmptyIsLowestExactly`).
- A version or a store's database edited while the stores are unreachable is deployed on a schema that
  is not there (`EditDuringOutageDeploysUnreadyVersion`, `StoreEditDuringOutageDeploysOnEmptyDatabase`,
  mid-upgrade `UpgradeGoesOnOverEditedStore`; exactly when: `GateGuaranteesExactly`).
- A pass that hands a service the target and loses its status write can have it taken back by the next
  (`HistoryIsRolledBack`; exactly when: `TakenBackExactly`).
- An inspector Job's name carries no database, so after a database edit an old answer still counts
  (`OldAnswerCountsForNewDatabase`; exactly when: `SchemaReadyGuaranteesExactly`).
- Disabling internal-frontend while its phase waits is harmless as long as its Deployment stays, which
  the pass that entered the phase templated at the target; if that Deployment is gone or off the
  target, the upgrade is doomed (`DisabledInternalFrontendRuns`, `DisabledInternalFrontendExactly`).
- A pod template that pins another label or image for a service dooms the upgrade
  (`HarmfulOverridesRun`); one that replaces a schema Job's image keeps its store from provisioning
  (`HarmfulSchemaImageSticks`, `BuiltJobCountsExactly`).
- A server that forgets a request before the run ID is persisted starts a second execution, and a
  run whose status write was lost is not stopped on deletion (`ForgettingServerStartsTwice`,
  `UnrecordedRunIsNotStopped`; exact count in `StartedAtMostOnce`).
- An execution status unknown to the operator counts as finished under the phase Pending
  (`PhaseTellsTerminalExactlyWhenKnown`).
- A namespace whose blanked description or owner the server keeps never settles (`NeverSettlesExactly`).
- A workflow ID already in use makes a resource adopt, and on deletion cancel, an execution that is not
  its own (`AdoptedRunIsCancelled`; exactly when: `RecordedRunIsOursExactly`).
- The phase Ready and the condition Ready can disagree (`ReadyWhileUpgrading`,
  `PhaseDisagreesWithReadyExactly`).
- Peers that share a name with different flags never settle (`DuplicateNamesNeverSettle`, exactly when:
  `SecondPassIsQuietExactly`); admission rules them out.
- A failover followed in the same pass by a refused update is not recorded (`FailoverUnrecordedExactly`).
- A remote cluster listed with the right flag at a wrong address stays there (`AddressIsRightExactly`).

## Model

| member | source | states |
|---|---|---|
| SchemaVersions.CompareSchemaVersions | internal/persistence/schema.go:33-51 | the index loop over split components computes the recursive comparison |
| SchemaVersions.DigitExactly | internal/persistence/schema.go:26-62 | with spaces around it or not, led by a v or not, a version's dotted parts are its numbers in order, zero where a part is no number or missing |
| SchemaVersions.CompareIsLexicographic | internal/persistence/schema.go:33-62 | on all strings, negative, zero and positive mean exactly lexicographically below, equal and above on zero-padded components |
| SchemaVersions.CompareIsTotalPreorder | internal/persistence/schema.go:33-51 | reflexive, antisymmetric in sign, transitive across different lengths, for all strings |
| SchemaVersions.SatisfiesExactly | internal/persistence/schema.go:66-71 | a schema satisfies a requirement exactly when it is not blank and not below it |
| SchemaVersions.SatisfactionIsMonotone | internal/persistence/schema.go:66-71 | a satisfied requirement survives a newer non-blank schema and a weaker requirement |
| SchemaVersions.EmptyIsLowestExactly | internal/persistence/schema.go:30-51 | the empty version is at or below exactly those whose first non-zero component is not negative |
| SchemaVersions.EmptyIsNotAlwaysLowest | internal/persistence/schema.go:30-51 | a version below the empty one |
| Versions.ParsedExactly | internal/temporal/versions.go:73-87 | a version parses exactly when it is three numbers joined by dots, to those numbers |
| Versions.MinorExactly | internal/temporal/versions.go:91-98 | the minor is what stands before the second dot, or all of it |
| Versions.LookupExactly | internal/temporal/versions.go:101-109 | the row found is the first one of the version's minor |
| Versions.MoveAllowedExactly | internal/temporal/versions.go:199-227 | between supported versions a move is allowed exactly when it does not go down and crosses at most one minor; the check errs exactly for an unsupported target or an unparsable source |
| Versions.AllowedMoveAscends | internal/temporal/versions.go:199-227 | an allowed move never lowers the version, keeps the major, and climbs at most one minor |
| Versions.SemverIsInjective | internal/temporal/versions.go:73-87 | supported versions with equal numbers are the same string |
| Versions.ReachesExactlyUpward | internal/temporal/versions.go:199-227 | between supported versions a chain of allowed moves exists exactly when the target is not below the source |
| VersionMatrix.SupportedVersionsAreCoherent | internal/temporal/versions_gen.go:7-98 | the shipped table has the shape these results need: consecutive minors, ascending patches, each row fed by the one below |
| VersionQueries.ParseVersion | internal/temporal/versions.go:73-87 | the loop that fills major, minor and patch yields the parse, or its error |
| VersionQueries.Lookup | internal/temporal/versions.go:101-109 | the scan finds the first row of the minor |
| VersionQueries.Supports | internal/temporal/versions.go:112-125 | true exactly for patch versions listed in a row of their own minor |
| VersionQueries.AllowsUpgrade | internal/temporal/versions.go:199-227 | the branches and the final scan compute the upgrade relation, errors included |
| VersionQueries.ResolveLatestPatch | internal/temporal/versions.go:163-183 | the running maximum ends on a listed patch that no parsable patch of the row exceeds; an error exactly for an unknown minor or an empty row |
| VersionQueries.CollectPatches | internal/temporal/versions.go:140-144 | the append loop lists the rows' patches in order |
| VersionQueries.SortIsUnique | internal/temporal/versions.go:145-159 | a strictly ascending list is the only sorted arrangement of its elements |
| VersionQueries.SortedVersionsAreTheRows | internal/temporal/versions.go:140-160 | whatever the sort does, the result is the rows in order and its last element is the newest supported version |
| VersionQueries.ServerImageExactly | internal/resources/deployment.go:60-68 | a custom image wins; otherwise the public server image at the assigned version, or the spec's if none is assigned |
| VersionQueries.DefaultingKeepsImages | internal/webhook/v1alpha1/temporalcluster_webhook.go:72-81 | clearing a default-shaped image changes no deployed image, is idempotent, and leaves the image following the version unless custom |
| VersionRuns.HistoryInvariantHolds | internal/webhook/v1alpha1/temporalcluster_webhook.go:280-320 | over admitted runs the spec's, running and record's versions are supported, were admitted, and are joined upward by chains |
| VersionRuns.RecordsFollowAllowedChains | internal/controller/temporalcluster_upgrade.go:65-93 | the running version is empty or was the spec's; each record goes strictly upward from it to a version that was the spec's, along allowed moves |
| VersionRuns.WorkingRecordsAscend | internal/controller/temporalcluster_upgrade.go:65-93 | the same of the record a reconcile has just created |
| VersionRuns.DriverIsFinal | internal/webhook/v1alpha1/temporalcluster_webhook.go:322-330 | over admitted runs the default store is SQL throughout or never |
| ClusterTypes.RunsImage | internal/controller/temporalcluster_upgrade.go:240-247 | the container loop is true exactly when the first container of that name runs the image |
| PersistenceFacts.OnlyCurrentJobsCount | internal/controller/temporalcluster_persistence.go:292-371 | a schema Job is reported succeeded or failed exactly when it could be read, ended that way, runs this version's image and is not being deleted |
| PersistenceFacts.UpdateWaitsForSetup | internal/controller/temporalcluster_persistence.go:221-280 | over the whole stage, an update Job appears only for a store read non-empty or whose current-image setup Job was found succeeded |
| PersistenceFacts.BuiltJobCountsExactly | internal/resources/schemajob.go:255-285 | a finished schema Job the operator built counts exactly when the user's Job template keeps the image; otherwise it is deleted again |
| StoreVerdicts.EndingExactly | internal/controller/temporalcluster_persistence.go:439-452 | a Job counts as succeeded, failed or unfinished by its first true ending condition |
| StoreVerdicts.SchemaJobExactly | internal/controller/temporalcluster_persistence.go:292-371 | succeeded, failed and running exactly for an undeleted Job whose schema container runs temporalio/admin-tools at this version and whose conditions say so; an error exactly when the call that was due failed |
| StoreVerdicts.SchemaJobEffects | internal/controller/temporalcluster_persistence.go:292-360 | a missing Job is created for the store's database, one running another version's tools is marked deleted, and nothing else changes |
| StoreVerdicts.JobCountsForItsVersionOnly | internal/controller/temporalcluster_persistence.go:340-371 | a Job built for one version, however it ended, counts under another spec exactly when the versions are equal; else it is deleted and pending |
| StoreVerdicts.FirstMessageExactly | internal/persistence/jobinspector.go:60-91 | the message read is the first of the inspect containers of the first pod that left one |
| StoreVerdicts.InspectionExactly | internal/persistence/jobinspector.go:60-124 | when an inspection answers, and with what, and when it errs, for every state of Job, pods and calls |
| StoreVerdicts.InspectionEffects | internal/persistence/jobinspector.go:60-110 | an inspection creates the missing Job, marks a finished silent one, and changes nothing else |
| StoreVerdicts.ReachableExactly | internal/controller/temporalcluster_persistence.go:112-141 | reachable if and only if the targets resolve and both stores answer; finding them unreachable is no error and changes no other condition and no schema Job |
| StoreVerdicts.VerdictExactly | internal/controller/temporalcluster_persistence.go:74-280 | done, inspecting, failed and error of a store, for every reading and Job state, judged by the minimum of its own kind and role |
| StoreVerdicts.VerdictEffects | internal/controller/temporalcluster_persistence.go:221-280 | the version recorded and the objects left by judging a store |
| StoreVerdicts.StageExactly | internal/controller/temporalcluster_persistence.go:112-178 | over reachable stores SchemaReady is true exactly when both are done; the error, the recorded versions and the order of the two stores |
| PersistenceFacts.DoneIsObserved | internal/controller/temporalcluster_persistence.go:221-245 | a store is done only by a version that was read and satisfies the minimum |
| PersistenceFacts.DoneNeedsNoJob | internal/controller/temporalcluster_persistence.go:248-280 | no Job outcome makes a store done |
| PersistenceFacts.PersistenceIsFresh | internal/controller/temporalcluster_persistence.go:112-178 | without error, reachability is re-evaluated; reachable stores get a schema verdict for this spec, unreachable ones leave the old one |
| PassFacts.MidIsFresh | internal/controller/temporalcluster_controller.go:73-118 | what the upgrade stage sees was established in this pass, or is the persisted schema condition of an outage |
| PassFacts.ReadyIsFresh | internal/controller/temporalcluster_services.go:185-231 | a pass that computes Ready=True saw reachability, schema, availability and certificates in that same pass for the current spec |
| PassFacts.ReadingRecorded | internal/controller/temporalcluster_persistence.go:112-178 | a pass that found the schema ready recorded the very version it read and accepted for each store; one that reached no store keeps what was recorded |
| PassFacts.RollupReports | internal/controller/temporalcluster_services.go:139-163 | each listed service gets its Deployment's replica counts and the spec's version; other entries stay |
| PassFacts.PhaseDisagreesWithReadyExactly | internal/controller/temporalcluster_services.go:185-231 | phase Ready and condition Ready differ exactly when all else is ready and just one of an upgrade and missing certificates holds |
| RolloutFacts.PhaseTellsExactly | internal/controller/temporalcluster_services.go:185-231 | in every run the persisted phase is Pending, ProvisioningSchema, Upgrading, DeployingServices or Ready exactly as the persisted conditions and record say |
| RolloutFacts.CertificatesExactly | internal/controller/temporalcluster_mtls.go:44-66 | the mTLS condition and error, and that nothing happens without mTLS |
| RolloutFacts.PassFailsExactly | internal/controller/temporalcluster_controller.go:73-118 | a pass errs exactly when one of its stages does, and assigns versions exactly past the first two |
| Mishaps.ReadyWhileUpgrading | internal/controller/temporalcluster_services.go:185-231 | a run from a new resource whose mid-upgrade pass sets Ready true under the phase Upgrading |
| UpgradeRuns.RecordsStayConsistent | internal/controller/temporalcluster_upgrade.go:65-93 | in every run a persisted record starts at the running version and ends elsewhere |
| UpgradeRuns.SchemaSeenBeforeRollout | internal/controller/temporalcluster_upgrade.go:65-171 | the target version is assigned only if this or an earlier reconcile of the same record saw every store accept it |
| UpgradeRuns.RecordStep | internal/controller/temporalcluster_upgrade.go:139-209 | a step keeps a record's phase or moves it to the next one |
| UpgradeRuns.RecordOnlyAdvances | internal/controller/temporalcluster_upgrade.go:139-209 | two persisted states of one record, however far apart: same versions, no earlier phase, never rollbackable again; rollbackable exactly before SchemaMigrating |
| UpgradeRuns.AssignedIsPrefix | internal/controller/temporalcluster_upgrade.go:106-135 | the services at the target form a prefix of the upgrade order among those enabled |
| AssignmentRuns.PassPhaseExactly | internal/controller/temporalcluster_upgrade.go:139-209 | a pass, written or not, assigns in the next phase exactly when it finds what its phase waits for |
| AssignmentRuns.AssignedExactly | internal/controller/temporalcluster_upgrade.go:106-135 | a service is handed the target exactly when the upgrade order has reached it |
| AssignmentRuns.AssignedPrefixNeverShrinks | internal/controller/temporalcluster_upgrade.go:54-135 | what a written pass assigned the target is assigned it by every later pass of the record, written or not, with all enabled services before it |
| AssignmentRuns.TakenBackExactly | internal/controller/temporalcluster_upgrade.go:65-171 | over all passes of a record, written or not, a service gets the source back exactly when the advance to it was never written and the later pass does not find what the phase before it waits for; so at most that one service |
| Mishaps.UnwrittenAdvanceIsTakenBack | internal/controller/temporalcluster_upgrade.go:139-185 | for any spec and status at RollingFrontend: an unwritten pass hands history the target and the next, no longer finding the frontend rolled out, the source |
| Mishaps.HistoryIsRolledBack | internal/controller/temporalcluster_upgrade.go:65-185 | a run from a new resource in which that happens |
| UpgradeRuns.CommittedAssignment | internal/controller/temporalcluster_upgrade.go:65-135 | a committed pass assigns exactly what the record it persists says |
| UpgradeRuns.VersionChangesOnlyTwoWays | internal/controller/temporalcluster_services.go:185-231 | the running version changes from empty to the spec's at first Ready, or from a record's source to its target when a persisted Complete is closed |
| UpgradeRuns.ClosedOnlyAfterRollout | internal/controller/temporalcluster_upgrade.go:139-247 | on closing, every service enabled throughout the record was seen with the target's label and server image, its generation observed, and all desired replicas both updated and ready |
| UpgradeRuns.RolledOutExactly | internal/controller/temporalcluster_upgrade.go:213-247 | the rollout test is exactly label, first temporal container's image, generation, updated and ready replicas, with one replica desired if none is set |
| RolloutFacts.PassMovesExactly | internal/controller/temporalcluster_upgrade.go:139-236 | the table of transitions: a pass leaves each phase for the next one exactly when it finds that phase's condition, for a rolling phase the five tests of its service's Deployment |
| RolloutFacts.WrittenPassMovesExactly | internal/controller/temporalcluster_upgrade.go:139-236 | in every run a written pass persists exactly that transition, or closes a Complete record at its target |
| RolloutFacts.AssignsExactly | internal/controller/temporalcluster_upgrade.go:95-135 | in every state the spec's version without a record; under one the target for the services its phase has reached, by table, and the source for the others |
| UpgradeProgress.HealthyPass | internal/controller/temporalcluster_controller.go:73-118 | a pass in which nothing fails commits, sees reachability and schema true, and applies every enabled service |
| UpgradeProgress.RemainingIsBounded | internal/controller/temporalcluster_upgrade.go:187-209 | at most ten phase changes with internal-frontend, nine without |
| UpgradeProgress.SettledAdvances | internal/controller/temporalcluster_upgrade.go:139-236 | a healthy pass that finds the rolling service templated and caught up lowers the rank by exactly one |
| UpgradeProgress.RankNeverGrows | internal/controller/temporalcluster_upgrade.go:139-209 | with the spec fixed no step raises the rank, whatever fails |
| UpgradeProgress.PhaseStep | internal/controller/temporalcluster_upgrade.go:139-209 | with the spec fixed any step keeps the phase or moves it one on, and leaves a rolling phase only past its guard |
| UpgradeProgress.PrimedStep | internal/controller/temporalcluster_services.go:42-83 | while the phase stays, a rolling service templated at the target stays so through any pass, failed, unwritten or not |
| UpgradeProgress.UpgradeCompletes | internal/controller/temporalcluster_upgrade.go:65-236 | with a fixed spec and templates left to the operator, one healthy pass and ten productive ones (nine without internal-frontend) complete the upgrade, with any number of failing, unreachable and unwritten passes between them |
| UpgradeProgress.DoomedForever | internal/controller/temporalcluster_upgrade.go:175-236 | a service off the target that the operator will never template there keeps its phase from being left, in every such segment |
| UpgradeProgress.CompletesExactlyUnlessDoomed | internal/controller/temporalcluster_upgrade.go:65-236 | the upgrade completes if and only if the first healthy pass leaves no such service ahead |
| UpgradeProgress.DisabledInternalFrontendExactly | internal/controller/temporalcluster_upgrade.go:187-209 | internal-frontend disabled during its phase dooms the upgrade exactly when its Deployment is missing or off the target, or the worker is held back |
| UpgradeProgress.HarmfulOverridesDoom | internal/resources/deployment.go:285-364 | a healthy pass under a pod template that pins an enabled service ahead to another label or image leaves it immovable |
| DeploymentFacts.ApplyTemplates | internal/resources/deployment.go:140-364 | applying a service at the spec's version templates it there exactly when the shared and own pod templates together change neither label nor image; otherwise no version does |
| DeploymentFacts.PassDeployments | internal/controller/temporalcluster_services.go:42-83 | wherever a pass fails, each service leaves it with the template it had or, if enabled, the one generated for its assigned version |
| RolloutFacts.BuiltExactly | internal/resources/deployment.go:140-364 | the generated label, image and replicas: own pod template, else the shared one, else the assigned version |
| RolloutFacts.AppliedExactly | internal/controller/temporalcluster_services.go:130-137 | an apply changes nothing of a Deployment that has the template, and otherwise sets it and adds one generation, leaving the reported counts |
| RolloutFacts.ServicesExactly | internal/controller/temporalcluster_services.go:42-83 | the closed gate does nothing and is no error; otherwise exactly the enabled services before a failing one are applied, in order, and the errors |
| RolloutFacts.AvailableExactly | internal/controller/temporalcluster_services.go:139-181 | Available is true exactly when every enabled service has a ready replica |
| RolloutFacts.ServiceTableExactly | internal/controller/temporalcluster_services.go:139-181 | the service table after a pass that did its work: ready and desired replicas of each enabled service and the spec's version; other entries stay |
| Mishaps.HarmfulOverridesRun | internal/resources/deployment.go:285-364 | a run from a new resource that such a pod template dooms |
| Mishaps.DisabledInternalFrontendRuns | internal/controller/temporalcluster_upgrade.go:175-236 | a run to the internal-frontend phase: disabling the service there leaves the upgrade clear; with its Deployment deleted first, doomed |
| Lifecycles.UpgradeCanComplete | internal/controller/temporalcluster_upgrade.go:65-236 | from any state of a healthy cluster with nothing in the way, stores of either kind, concrete steps meet every hypothesis of the completion theorem and end with no upgrade left |
| Lifecycles.InstallCanComplete | internal/controller/temporalcluster_services.go:42-231 | a pass, Deployments coming up, and a second pass record the spec's version |
| Lifecycles.HealthLasts | internal/controller/temporalcluster_controller.go:73-118 | a healthy pass leaves the stores' pods and inspectors as healthy as it found them |
| Lifecycles.InstallThenUpgradeHappens | internal/controller/temporalcluster_controller.go:73-118 | from a new resource a run of the controller installs one version and, after an edit, ends with the other recorded |
| ShippedUpgrade.ShippedUpgradeHappens | internal/temporal/versions_gen.go:7-98 | on the shipped matrix a concrete cluster installs 1.30.8 and upgrades to 1.31.0 |
| FreshInstalls.SchemaConditionRestsOnReading | internal/controller/temporalcluster_persistence.go:112-178 | a persisted SchemaReady=True rests on the last committed pass that reached the stores |
| FreshInstalls.GateRestsOnReading | internal/controller/temporalcluster_services.go:42-83 | a pass that applies Deployments read the schema itself, or found the stores unreachable and rests on that pass |
| FreshInstalls.OneReadingInForce | internal/controller/temporalcluster_services.go:42-83 | every open gate has exactly one reading in force, which accepted its own spec's version |
| FreshInstalls.ReadingInForceIsRecorded | internal/controller/temporalcluster_persistence.go:221-245 | behind an open gate the version recorded for a store is the one the reading in force took |
| FreshInstalls.GateGuaranteesExactly | internal/controller/temporalcluster_services.go:42-83 | behind any open gate the spec's store is sure to meet the spec's version, whatever the databases hold beyond that reading, if and only if the reading was of the database the spec names now and the recorded version is one the spec's version accepts |
| FreshInstalls.FreshInstallNeverPrecedesSchema | internal/controller/temporalcluster_services.go:42-83 | in an honest run a fresh install deploys the spec's version, every store served in that sense really holds its schema, and a pass that reached its stores is served |
| FreshInstalls.EditDuringOutageDeploysUnreadyVersion | internal/controller/temporalcluster_persistence.go:112-141 | an honest three-step run that deploys an edited version whose schema the database does not hold |
| FreshInstalls.StoreEditDuringOutageDeploysOnEmptyDatabase | internal/webhook/v1alpha1/temporalcluster_webhook.go:322-330 | an honest run with an edit admission allows that deploys on a database holding no schema at all |
| ShippedUpgrade.ShippedOutageDeploysTooEarly | internal/temporal/versions_gen.go:7-98 | that run on the shipped matrix, with the admitted edit from 1.30.8 to 1.31.0 |
| DatabaseRuns.SchemaReadyIsReal | internal/controller/temporalcluster_persistence.go:143-178 | if schemas never regress, SchemaReady=True set by a reconcile means every SQL and Cassandra database holds an accepted schema, under any spec edits; for an inspected store, if its answering pod inspected that database |
| DatabaseRuns.AnswersStayHome | internal/persistence/jobinspector.go:60-110 | answers are for the store itself for as long as the spec names the same database for it and only its own Jobs start inspector pods, whatever else is edited |
| DatabaseRuns.RolloutNeverPrecedesSchema | internal/controller/temporalcluster_upgrade.go:106-171 | when the target is assigned, a pass of the record read the stores, and any such reading of the database the spec now names makes that database really hold the target's schema |
| DatabaseRuns.GuaranteesExactly | internal/controller/temporalcluster_persistence.go:221-245 | a reading guarantees a spec's store, whatever the databases hold beyond bearing it out, exactly when it is of the database the spec names at a version the spec's version accepts |
| DatabaseRuns.SchemaReadyGuaranteesExactly | internal/controller/temporalcluster_persistence.go:143-178 | a pass that reaches the stores and sets SchemaReady recorded a reading that guarantees a store exactly when it is SQL or Cassandra and the reading is for the store itself |
| ForeignReadings.OldAnswerCountsForNewDatabase | internal/persistence/jobinspector.go:60-110 | an honest run: after an edit of an inspected store's database one pass commits reachable and schema-ready on the old answer, while the named database holds nothing |
| ForeignReadings.UpgradeGoesOnOverEditedStore | internal/controller/temporalcluster_upgrade.go:106-171 | an honest run from a new resource: mid-upgrade, after a store edit during an outage, the frontend gets the target while the named database holds nothing |
| InspectorProgress.SpentJobIsDeletedExactly | internal/persistence/jobinspector.go:60-124 | a Job is deleted exactly when it is terminal with nothing to read and the calls succeed; no other store's Job is touched |
| InspectorProgress.InspectingNeverRecedes | internal/controller/temporalcluster_persistence.go:374-412 | no pass moves a Job away from its replacement, API failures included |
| InspectorProgress.FruitlessHistoriesAreShort | internal/persistence/jobinspector.go:60-110 | a history without an answer or a fresh Job holds at most three advancing events, refreshes after updates included |
| InspectorProgress.NeverWedged | internal/persistence/jobinspector.go:60-110 | in every state a clean pass is fruitful or an advancing event is possible |
| InspectorProgress.TwoRoundsSuffice | internal/persistence/jobinspector.go:60-110 | from any state two rounds of due events and clean passes yield an answer or a fresh Job |
| ProvisioningProgress.RoundAdvances | internal/controller/temporalcluster_persistence.go:112-360 | a round of due events and a clean pass finds both stores reachable and ready or shrinks the total work, stores direct or inspected |
| ProvisioningProgress.ProvisioningCompletes | internal/controller/temporalcluster_persistence.go:112-428 | from any state of both stores' schema Jobs, inspectors and databases, thirty-seven rounds at most contain a pass that sets both conditions true |
| ProvisioningProgress.TotalWorkIsBounded | internal/controller/temporalcluster_persistence.go:112-428 | the total work never exceeds thirty-six |
| ProvisioningProgress.RoundCanFollow | internal/controller/temporalcluster_persistence.go:292-428 | from any state such a round can follow |
| ProvisioningProgress.FailedJobSticks | internal/controller/temporalcluster_persistence.go:248-280 | no pass removes or retries a failed Job of the current version; it stays until the cluster removes it |
| ProvisioningProgress.HarmfulSchemaImageSticks | internal/controller/temporalcluster_persistence.go:292-371 | under a Job template that replaces the image a store below its minimum stays migrating |
| ClusterReconciler.ClassifyJob | internal/controller/temporalcluster_persistence.go:439-452 | the condition loop returns the first ending, else running or pending |
| ClusterReconciler.JobIsTerminal | internal/persistence/jobinspector.go:114-124 | true exactly for a Job with an ending condition |
| ClusterReconciler.FindMessage | internal/persistence/jobinspector.go:60-91 | the nested scan returns the first termination message of the inspect container |
| ClusterReconciler.EnsureSchemaJob | internal/controller/temporalcluster_persistence.go:292-360 | objects and phase equal the function's; succeeded exactly for a readable, undeleted Job of this version's tools that completed |
| ClusterReconciler.DeleteInspectorJob | internal/controller/temporalcluster_persistence.go:417-428 | marks exactly that store's inspector for deletion, or reports the error |
| ClusterReconciler.EnsureInspectorJob | internal/controller/temporalcluster_persistence.go:374-412 | objects and result equal the function's |
| ClusterReconciler.Backend.InspectOnce | internal/persistence/jobinspector.go:60-110 | the first answer is cached and repeated for the rest of the pass; without one the objects and result equal the function's |
| ClusterReconciler.Backend.Probe | internal/persistence/jobinspector.go:127-136 | reachability from the inspection, or from the direct probe |
| ClusterReconciler.UniformVersions | internal/controller/temporalcluster_upgrade.go:95-101 | the loop maps every enabled service to the version |
| ClusterReconciler.UpgradeServiceVersions | internal/controller/temporalcluster_upgrade.go:106-135 | the nested scans give each enabled service the source or target version of the phase |
| ClusterReconciler.ServiceRolledOut | internal/controller/temporalcluster_upgrade.go:213-236 | true exactly when the Deployment can be read and has the target's label and image, an observed generation, and all desired replicas updated and ready |
| ClusterReconciler.AdvanceUpgrade | internal/controller/temporalcluster_upgrade.go:139-185 | the in-place phase step equals the function's |
| ClusterReconciler.ReconcileUpgrade | internal/controller/temporalcluster_upgrade.go:65-93 | new status and assigned versions equal the function's |
| ClusterReconciler.ReconcileJobSchema | internal/controller/temporalcluster_persistence.go:248-280 | objects and verdict equal the function's |
| ClusterReconciler.ReconcileStoreSchema | internal/controller/temporalcluster_persistence.go:221-245 | objects, verdict and recorded version equal the function's |
| ClusterReconciler.ProbeAll | internal/controller/temporalcluster_persistence.go:122-141 | the loop stops at the first silent store and leaves the function's objects and cache |
| ClusterReconciler.SchemaAll | internal/controller/temporalcluster_persistence.go:143-178 | the loop with its migrating flag leaves the function's status and objects |
| ClusterReconciler.ReconcilePersistence | internal/controller/temporalcluster_persistence.go:112-178 | status, objects and error equal the function's |
| ClusterReconciler.RollupServiceStatus | internal/controller/temporalcluster_services.go:139-181 | the loop fills the service table and the Available condition as the function does |
| ClusterReconciler.ReconcileServices | internal/controller/temporalcluster_services.go:42-83 | status, objects and error equal the function's, gate included |
| ClusterReconciler.ComputeReadyAndPhase | internal/controller/temporalcluster_services.go:185-231 | the in-place update equals the function's |
| ClusterReconciler.ReconcileMTLS | internal/controller/temporalcluster_mtls.go:44-66 | the mTLS condition and error equal the function's |
| ClusterReconciler.Reconcile | internal/controller/temporalcluster_controller.go:73-118 | the stages in order leave exactly the status, objects, versions and error that the run theorems speak of |
| ShellQuoting.EscapedReadsBack | internal/resources/schemajob.go:237-239 | reading an escaped text up to its closing quote yields exactly the text |
| ShellQuoting.QuotingRoundTrips | internal/resources/schemajob.go:221-239 | for every argument list, tokenizing the space-joined quotations by POSIX rules yields exactly those arguments in order |
| ShellQuoting.QuotingIsInjective | internal/resources/schemajob.go:221-239 | equal joined texts come from equal argument lists |
| ShellQuoting.SchemaContainerExec | internal/resources/schemajob.go:119-234 | wrapped in a script that exports the password command's output, or not, the store's own tool gets the same argument vector |
| SchemaArgs.BuildSqlArgs | internal/resources/schemajob.go:133-159 | the appends build the SQL tool's argument list |
| SchemaArgs.BuildCassandraArgs | internal/resources/schemajob.go:161-185 | the appends build the Cassandra tool's argument list |
| SchemaArgs.SqlArgsReadBack | internal/resources/schemajob.go:133-159 | two lists are equal exactly when plugin, host, port, user, database, TLS and task are |
| SchemaArgs.CassandraArgsReadBack | internal/resources/schemajob.go:161-185 | two lists are equal exactly when first host, port, keyspace, user, TLS and task are |
| SchemaArgs.ScriptReadsBack | internal/resources/schemajob.go:133-239 | the quoted text of a script determines the store and the task it was made for |
| SchemaArgs.ArgsInFull | internal/resources/schemajob.go:133-185 | both lists written out for stores with everything set |
| SchemaArgs.DirectoriesDiffer | internal/resources/schemajob.go:103-117 | two schema directories are the same only for the same database kind, schema version and store |
| Mesh.ValidatePeers | internal/webhook/v1alpha1/temporalclusterconnection_webhook.go:49-76 | the loop reports exactly the errors each peer deserves, and none exactly when every peer is well formed and no name repeats |
| Mesh.AdmittedPeersAreDistinct | internal/controller/temporalclusterconnection_controller.go:126-164 | admitted peers resolve to peers with distinct names |
| Mesh.ResolvedExactly | internal/controller/temporalclusterconnection_controller.go:126-164 | what a spec peer resolves to: local by reference alone, enabled unless the spec says no, whose address, and whether it can be dialed |
| Mesh.DialedFromSpec | internal/controller/temporalclusterconnection_controller.go:126-195 | from the spec: a view for exactly the names whose peer refers to a Ready cluster that answered |
| Mesh.DialedExactly | internal/controller/temporalclusterconnection_controller.go:170-195 | which peers get a view, and which listing it is |
| Mesh.UpsertIsPointwise | internal/controller/temporalclusterconnection_controller.go:231-253 | with distinct names each entry ends as the peer's own address and flag where an upsert was due and got through, else as it was |
| Mesh.UpsertIgnoresOrder | internal/controller/temporalclusterconnection_controller.go:231-253 | the final views do not depend on the order of peers |
| Mesh.UpsertReachesDesired | internal/controller/temporalclusterconnection_controller.go:231-253 | without RPC failures every other addressable peer is listed with the desired flag, at its own address unless it had that flag already |
| Mesh.IssuedExactly | internal/controller/temporalclusterconnection_controller.go:231-253 | one request for each other addressable peer that was missing or had the wrong flag, with its address and flag, whichever fail |
| Mesh.AddressIsRightExactly | internal/controller/temporalclusterconnection_controller.go:231-253 | after any number of failure-free passes a peer is listed at its own address exactly when it was missing, had the other flag, or had that address; other addresses are never repaired |
| Mesh.SecondPassIsQuietExactly | internal/controller/temporalclusterconnection_controller.go:216-253 | for any view and peer list, the pass after a failure-free one issues no RPC if and only if no two wanted peers share a name with different flags |
| Mesh.SecondPassIsQuiet | internal/controller/temporalclusterconnection_controller.go:216-253 | with the distinct names admission guarantees, it issues none and changes no view |
| Mesh.DuplicateNamesNeverSettle | internal/controller/temporalclusterconnection_controller.go:231-253 | two such peers keep every later pass issuing RPCs, however many went before |
| Mesh.VerdictIsExact | internal/controller/temporalclusterconnection_controller.go:258-356 | all-ready if and only if every enabled peer is reachable and connected, spelled out as the complete mesh; the reason is PeerUnreachable exactly when an enabled local peer was not dialed or an enabled external one is listed by nobody |
| Mesh.HealthyPassConnects | internal/controller/temporalclusterconnection_controller.go:216-356 | after a failure-free pass every dialed peer is connected, and an addressable external one exactly when it is enabled and anyone was dialed |
| Mesh.HealthyMeshIsReadyExactly | internal/controller/temporalclusterconnection_controller.go:216-356 | so the group is ready exactly when every enabled local peer was dialed and an enabled external one has somebody to list it |
| Mesh.VerdictIgnoresOrder | internal/controller/temporalclusterconnection_controller.go:276-315 | verdict and reason do not depend on the order of peers |
| Mesh.DeletionUndoesUpserts | internal/controller/temporalclusterconnection_controller.go:361-382 | deletion leaves each dialed view as before registration less the connection's other peers; foreign remotes stay |
| MeshReconciler.Dial | internal/controller/temporalclusterconnection_controller.go:170-195 | the loop's map of fresh per-peer objects holds exactly the dialed views |
| MeshReconciler.UpsertOn | internal/controller/temporalclusterconnection_controller.go:231-253 | the inner loop leaves each peer's entry as above and issues exactly the requests that were due |
| MeshReconciler.UpsertAll | internal/controller/temporalclusterconnection_controller.go:231-253 | in whatever order the map is visited, every view ends as the function says |
| MeshReconciler.Reachable | internal/controller/temporalclusterconnection_controller.go:258-273 | the reachable map's entry for a peer |
| MeshReconciler.Connected | internal/controller/temporalclusterconnection_controller.go:320-356 | the loops with the others counter decide exactly connectedness |
| MeshReconciler.BuildStatuses | internal/controller/temporalclusterconnection_controller.go:276-315 | one status per peer in order; the folded verdict, reason and blamed peer are those of the whole mesh |
| MeshReconciler.ReconcilePeers | internal/controller/temporalclusterconnection_controller.go:216-227 | the verdict is that of the mesh the pass left behind |
| MeshReconciler.RemoveAll | internal/controller/temporalclusterconnection_controller.go:361-382 | removal on every dialed peer, in any order, equals the function |
| WorkflowRuns.PhaseTellsTerminalExactlyWhenKnown | internal/temporal/workflowrun.go:227-256 | a phase other than Running and Pending means finished; the converse holds exactly for known statuses |
| WorkflowRuns.PhaseNamesStatus | internal/temporal/workflowrun.go:227-246 | every status the operator knows has the phase of its name and no other has it |
| WorkflowRuns.RunIDIsFinal | internal/controller/temporalworkflowrun_controller.go:136-158 | in every run a persisted run ID never changes |
| WorkflowRuns.StartedAtMostOnce | internal/controller/temporalworkflowrun_controller.go:136-158 | the number of executions for the UID is exactly those the server forgot plus the remembered one until a run ID is persisted, and at most one more ever after |
| WorkflowRuns.OneExecution | internal/temporal/workflowrun.go:97-142 | a server that keeps the request until the run ID is persisted creates at most one execution, over crashes, lost responses and lost writes |
| WorkflowRuns.ForgettingServerStartsTwice | internal/temporal/workflowrun.go:97-142 | one lost write and one forgotten request make two executions |
| WorkflowRuns.StartsArePermitted | internal/controller/temporalworkflowrun_controller.go:64-145 | a workflow is started exactly by a pass that drives a live resource on a ready target, with nothing recorded, valid parameters and a policy that admits namespace and task queue; and it is this resource's workflow |
| WorkflowRuns.FinishedIsFrozen | internal/controller/temporalworkflowrun_controller.go:128-134 | once a completion time is persisted, no later step calls the server or changes phase, failure, run ID or completion time |
| WorkflowRuns.TtlDeletesExactly | internal/controller/temporalworkflowrun_controller.go:204-214 | a pass asks for deletion exactly when it leaves the run finished, past its TTL, and the request is accepted |
| WorkflowRuns.LooksExactly | internal/controller/temporalworkflowrun_controller.go:64-165 | which passes describe the run |
| WorkflowRuns.PassRecords | internal/controller/temporalworkflowrun_controller.go:123-202 | what any pass leaves in the persisted status: run ID, phase, this pass's time for a finished run, failure, or nothing |
| WorkflowRuns.CompletionIsWhenSeen | internal/controller/temporalworkflowrun_controller.go:182-202 | in every run a completion is recorded exactly when one earlier pass saw the run finished and was written, and its time is that pass's |
| WorkflowRuns.DeletedExactlyAfterTtl | internal/controller/temporalworkflowrun_controller.go:182-214 | in every run the operator asks for deletion exactly in a driving pass whose request is accepted once the TTL has run out since that pass |
| WorkflowRuns.FinalizerGoesExactlyWhenStopped | internal/controller/temporalworkflowrun_controller.go:216-248 | the exact condition under which a pass removes the finalizer, and exactly which stop call it makes |
| WorkflowRuns.GoneOnlyAfterStop | internal/controller/temporalworkflowrun_controller.go:64-99 | in every run a resource gone with a recorded unfinished run was let go with its target gone, under Abandon, or after an answered stop call for that run |
| WorkflowRuns.RecordedRunIsOursExactly | internal/temporal/workflowrun.go:97-142 | in every run the recorded run ID was recorded by one pass, and is of an execution created for this UID exactly when that pass's start was accepted or the execution it found open had been |
| WorkflowRuns.AdoptedRunIsCancelled | internal/temporal/workflowrun.go:97-142 | a workflow ID in use makes the resource adopt a foreign execution, which its deletion cancels |
| WorkflowRuns.UnrecordedRunIsNotStopped | internal/controller/temporalworkflowrun_controller.go:216-238 | a run whose status write was lost is not stopped on deletion |
| WorkflowRunReconciler.Contains | internal/controller/temporalworkflowrun_controller.go:325-332 | the loop decides membership |
| WorkflowRunReconciler.CheckPolicy | internal/controller/temporalworkflowrun_controller.go:312-323 | passes exactly when enabled and each non-empty allowlist holds the name |
| WorkflowRunReconciler.RunReconciler.CleanUp | internal/controller/temporalworkflowrun_controller.go:204-214 | deletes exactly past the deadline |
| WorkflowRunReconciler.RunReconciler.Drive | internal/controller/temporalworkflowrun_controller.go:123-200 | the in-memory copy, its status writes and the calls equal the function's |
| WorkflowRunReconciler.RunReconciler.Finalize | internal/controller/temporalworkflowrun_controller.go:216-238 | stop call and finalizer removal equal the function's |
| WorkflowRunReconciler.RunReconciler.Reconcile | internal/controller/temporalworkflowrun_controller.go:64-121 | stored resource, server and calls equal the function the run theorems speak of |
| Namespaces.OnePassConvergesExactly | internal/controller/temporalnamespace_controller.go:155-199 | after an accepted drift-reconciling pass the next one mutates nothing, if and only if no blank field is kept by the server |
| Namespaces.NeverSettlesExactly | internal/controller/temporalnamespace_controller.go:155-199 | after any number of accepted passes the next one mutates nothing exactly when no blank field was stuck at first |
| Namespaces.RegistrationConverges | internal/controller/temporalnamespace_controller.go:155-259 | a registered namespace has exactly the spec's description, owner, retention (72 hours by default), globality, and clusters and active cluster where named; the next pass mutates nothing |
| Namespaces.RegistrationReports | internal/controller/temporalnamespace_controller.go:160-172 | a pass over a missing namespace, whatever is answered: when it registers, errs and reports |
| Namespaces.GlobalityIsFinal | internal/temporal/client.go:139-185 | no later pass, under whatever spec and answers, unregisters a namespace or changes whether it is global |
| Namespaces.PassLeaves | internal/controller/temporalnamespace_controller.go:155-259 | what any pass leaves on the server, whatever is answered |
| Namespaces.AcceptedPass | internal/controller/temporalnamespace_controller.go:155-277 | the server after an accepted pass, field by field in the spec's terms |
| Namespaces.IgnoringDriftOnlyFailsOver | internal/controller/temporalnamespace_controller.go:173-188 | with drift ignored a pass changes the active cluster alone, and then is quiet |
| Namespaces.QuietMeansAgreement | internal/controller/temporalnamespace_controller.go:261-277 | a pass is quiet exactly when server and spec agree, cluster lists as multisets |
| Namespaces.RequestsNeverMix | internal/temporal/client.go:156-185 | no request of any pass mixes an active-cluster change with other fields, and a failover comes first |
| Namespaces.StateFollowsRequests | internal/temporal/client.go:139-185 | the server ends where the pass's accepted requests, applied in order, take it |
| Namespaces.PassReports | internal/controller/temporalnamespace_controller.go:155-199 | which passes over a registered namespace return an error, report a failover, and issue one, whatever is answered |
| Namespaces.ReportIsObserved | internal/controller/temporalnamespace_controller.go:155-199 | a pass reports what the server held at the last describe that was answered |
| Namespaces.StatusRepeatsReport | internal/controller/temporalnamespace_controller.go:130-150 | the status of a global namespace repeats globality, active cluster and clusters of the report |
| Namespaces.FailoverStatusIsExact | internal/controller/temporalnamespace_controller.go:100-150 | an erring pass leaves the failover status alone; otherwise it is in progress exactly when this pass issued a failover and no later describe succeeded, and its time is bumped exactly when issued |
| Namespaces.FailoverUnrecordedExactly | internal/controller/temporalnamespace_controller.go:173-199 | an accepted failover goes unrecorded exactly when the repair after it in the same pass is due and refused |
| NamespaceReconciler.EqualStringSets | internal/controller/temporalnamespace_controller.go:281-296 | the counting loops decide multiset equality, for all inputs |
| NamespaceReconciler.NamespaceDrifted | internal/controller/temporalnamespace_controller.go:261-277 | drift as the function defines it |
| NamespaceReconciler.EnsureRegistered | internal/controller/temporalnamespace_controller.go:155-199 | server state, accepted requests, observed info and failover flag equal the function's; a new namespace is as the spec says and an old one keeps its globality |

## Left out

- Pod templates: the strategic merge of the shared and the per-service template is reduced to what each does to the version label and the server image, and that of the Job template to the schema image.
- Store identity: a store's driver connection (host, port, user, database name) is one string, so an edit of any of them counts as another database.
- Elasticsearch: its schema answers are read and acted on, but no claim is made about what the index really holds.
- Password command: the script text before the tool in a wrapped schema container is stated as text, not tokenized.
- Shell rules: only those of POSIX.1-2017 Shell Command Language that quoted words can meet are modelled, namely blanks, quote removal, single quotes and backslash.
- Mesh servers list remotes under the names they were registered with; a server that renames a peer is not modelled.
- Namespace server: an accepted request takes effect at once and keeps the cluster list it was given; a server that drops repeated cluster names is not modelled.
- Workflow run parameters: building them is one validity flag, and an execution's history length, start and close times are not tracked.
- Webhook: defaults other than the image, shard-count and cluster-metadata immutability, and the other spec validators are plain field checks.
- Sorting: the library sort of `SupportedVersions` is characterised by its result, not implemented.
- Schedules, search attributes, cluster clients, dev servers, the UI, monitoring and certificate objects would add mostly field-copying members; a failure of the UI or monitoring stage is modelled as an error of the pass.
- Events, logs, condition reasons and messages, requeue delays and timestamps other than those the logic reads.
