/**
 Reachability and schema of the datastores
 (internal/controller/temporalcluster_persistence.go and
 internal/persistence/jobinspector.go), as functions from what one reconcile finds
 to what it leaves behind.
 */
module Persistence {
  import opened Wrappers
  import opened SchemaVersions
  import opened Versions
  import opened ClusterTypes

  const SCHEMA_CONTAINER := "schema"
  const INSPECT_CONTAINER := "inspect"

  function AdminToolsImage(version: string): string {
    "temporalio/admin-tools:" + version
  }

  function MinSchemaFor(info: VersionInfo, kind: Kind, store: Store): string {
    match kind
    case Cassandra => info.minSchemaCassandra
    case Elasticsearch => info.minSchemaES
    case Sql => if store == VisibilityStore then info.minSchemaSQLVisibility else info.minSchemaSQL
  }

  // ----- Jobs -----

  datatype JobPhase = JobPending | JobRunning | JobSucceeded | JobFailed

  /** The first condition that ends a Job, if any. */
  function Ending(conditions: seq<JobCondition>): Option<JobPhase> {
    if conditions == [] then None
    else if conditions[0].isTrue && conditions[0].kind == JobComplete then Some(JobSucceeded)
    else if conditions[0].isTrue && conditions[0].kind == JobFailedType then Some(JobFailed)
    else Ending(conditions[1..])
  }

  function ClassifyJob(job: Job): JobPhase {
    Ending(job.conditions).GetOr(if job.active > 0 then JobRunning else JobPending)
  }

  predicate JobIsTerminal(job: Job) {
    Ending(job.conditions).Some?
  }

  function BuildSchemaJob(spec: Spec, store: Store): Job {
    var generated := AdminToolsImage(spec.version);
    var image := if spec.workloadIdentity then generated else spec.schemaImage.GetOr(generated);
    Job([Container(SCHEMA_CONTAINER, image)], [], 0, false, spec.StoreSpecOf(store).database)
  }

  function BuildInspectorJob(spec: Spec, store: Store): Job {
    Job([Container(INSPECT_CONTAINER, "operator")], [], 0, false, spec.StoreSpecOf(store).database)
  }

  datatype JobResult = JobResult(phase: Option<JobPhase>, objects: Objects)

  /** Reconciling persistence changes only Jobs: Deployments and pods stay as they are. */
  predicate Untouched(before: Objects, after: Objects) {
    before.deployments == after.deployments && before.pods == after.pods
  }

  /** `ensureSchemaJob`; no phase is an error. */
  function EnsureSchemaJob(spec: Spec, objects: Objects, env: StoreEnv, key: JobKey): (r: JobResult)
    ensures Untouched(objects, r.objects)
  {
    var api := env.JobApi(key.action);
    if api.getFails then JobResult(None, objects)
    else if key !in objects.schemaJobs then
      if api.createExists then JobResult(Some(JobPending), objects)
      else if api.createFails then JobResult(None, objects)
      else JobResult(Some(JobPending), objects.(schemaJobs := objects.schemaJobs[key := BuildSchemaJob(spec, key.store)]))
    else
      var job := objects.schemaJobs[key];
      if job.deleting then JobResult(Some(JobPending), objects)
      else if ImageOf(job.containers, SCHEMA_CONTAINER) != Some(AdminToolsImage(spec.version)) then
        if api.deleteFails then JobResult(None, objects)
        else JobResult(Some(JobPending), objects.(schemaJobs := objects.schemaJobs[key := job.(deleting := true)]))
      else JobResult(Some(ClassifyJob(job)), objects)
  }

  /** `deleteInspectorJob`; `None` is an error. */
  function DeleteInspectorJob(objects: Objects, api: Api, store: Store): Option<Objects> {
    if api.getFails then None
    else if store !in objects.inspectors then Some(objects)
    else if api.deleteFails then None
    else Some(objects.(inspectors := objects.inspectors[store := objects.inspectors[store].(deleting := true)]))
  }

  // ----- the inspector -----

  function MessageIn(statuses: seq<ContainerStatus>): Option<Message> {
    if statuses == [] then None
    else if statuses[0].name == INSPECT_CONTAINER && statuses[0].message.Some? then statuses[0].message
    else MessageIn(statuses[1..])
  }

  /** The first pod that left a termination message. */
  function AnsweringPod(pods: seq<Pod>): Option<Pod> {
    if pods == [] then None
    else if MessageIn(pods[0].statuses).Some? then Some(pods[0])
    else AnsweringPod(pods[1..])
  }

  function FirstMessage(pods: seq<Pod>): Option<Message> {
    var pod := AnsweringPod(pods);
    if pod.None? then None else MessageIn(pod.value.statuses)
  }

  datatype Inspection = Answered(result: InspectResult) | StillInspecting | InspectFailed
  datatype EnsuredJob = Usable(job: Job) | Unusable(why: Inspection)
  datatype EnsureResult = EnsureResult(job: EnsuredJob, objects: Objects)

  /** `ensureInspectorJob`. */
  function EnsureInspectorJob(spec: Spec, objects: Objects, api: Api, store: Store): (r: EnsureResult)
    ensures Untouched(objects, r.objects) && r.objects.schemaJobs == objects.schemaJobs
  {
    if api.getFails then EnsureResult(Unusable(InspectFailed), objects)
    else if store !in objects.inspectors then
      if api.createExists then EnsureResult(Unusable(StillInspecting), objects)
      else if api.createFails then EnsureResult(Unusable(InspectFailed), objects)
      else
        var built := BuildInspectorJob(spec, store);
        EnsureResult(Usable(built), objects.(inspectors := objects.inspectors[store := built]))
    else if objects.inspectors[store].deleting then EnsureResult(Unusable(StillInspecting), objects)
    else EnsureResult(Usable(objects.inspectors[store]), objects)
  }

  datatype InspectionResult = InspectionResult(inspection: Inspection, objects: Objects)

  /** `inspectOnce` before anything is cached. */
  function InspectOnce(spec: Spec, objects: Objects, env: StoreEnv, store: Store): (r: InspectionResult)
    ensures Untouched(objects, r.objects) && r.objects.schemaJobs == objects.schemaJobs
  {
    var ensured := EnsureInspectorJob(spec, objects, env.inspector, store);
    if ensured.job.Unusable? then InspectionResult(ensured.job.why, ensured.objects)
    else if env.podListFails then InspectionResult(InspectFailed, ensured.objects)
    else
      match FirstMessage(ensured.objects.PodsOf(store))
      case Some(Answer(result)) => InspectionResult(Answered(result), ensured.objects)
      case Some(Garbage) => InspectionResult(InspectFailed, ensured.objects)
      case None =>
        if !JobIsTerminal(ensured.job.job) then InspectionResult(StillInspecting, ensured.objects)
        else if env.inspector.deleteFails then InspectionResult(InspectFailed, ensured.objects)
        else
          var spent := ensured.job.job.(deleting := true);
          InspectionResult(StillInspecting,
                           ensured.objects.(inspectors := ensured.objects.inspectors[store := spent]))
  }

  // ----- probing -----

  type Cache = map<Store, InspectResult>

  datatype Probed = Probed(reachable: bool, cache: Cache, objects: Objects)

  function ProbeStore(spec: Spec, objects: Objects, env: Env, store: Store, cache: Cache): (p: Probed)
    ensures Untouched(objects, p.objects) && p.objects.schemaJobs == objects.schemaJobs
  {
    if spec.Inspected(store) then
      var i := InspectOnce(spec, objects, env.StoreEnvOf(store), store);
      if i.inspection.Answered? then
        Probed(i.inspection.result.reachable, cache[store := i.inspection.result], i.objects)
      else Probed(false, cache, i.objects)
    else Probed(env.StoreEnvOf(store).probe == ProbeOk, cache, objects)
  }

  /** The probe loop: it stops at the first store that does not answer. */
  function ProbeAll(spec: Spec, objects: Objects, env: Env, targets: seq<Store>, cache: Cache): (p: Probed)
    ensures Untouched(objects, p.objects) && p.objects.schemaJobs == objects.schemaJobs
    decreases |targets|
  {
    if targets == [] then Probed(true, cache, objects)
    else
      var p := ProbeStore(spec, objects, env, targets[0], cache);
      if !p.reachable then p else ProbeAll(spec, p.objects, env, targets[1..], p.cache)
  }

  // ----- schema of one store -----

  datatype Verdict = Done | Migrating | MigrationFailed | Inspecting | Failed
  datatype StoreResult = StoreResult(verdict: Verdict, version: Option<string>, objects: Objects)

  /** `reconcileJobSchema`. */
  function ReconcileJobSchema(spec: Spec, objects: Objects, env: StoreEnv, store: Store, current: string): (r: StoreResult)
    ensures Untouched(objects, r.objects)
  {
    if current == "" then
      var setup := EnsureSchemaJob(spec, objects, env, JobKey(store, Setup));
      if setup.phase.None? then StoreResult(Failed, Some(current), setup.objects)
      else if setup.phase.value == JobFailed then StoreResult(MigrationFailed, Some(current), setup.objects)
      else if setup.phase.value != JobSucceeded then StoreResult(Migrating, Some(current), setup.objects)
      else RunUpdateJob(spec, setup.objects, env, store, current)
    else RunUpdateJob(spec, objects, env, store, current)
  }

  function RunUpdateJob(spec: Spec, objects: Objects, env: StoreEnv, store: Store, current: string): (r: StoreResult)
    ensures Untouched(objects, r.objects)
  {
    var update := EnsureSchemaJob(spec, objects, env, JobKey(store, Update));
    if update.phase.None? then StoreResult(Failed, Some(current), update.objects)
    else if update.phase.value == JobFailed then StoreResult(MigrationFailed, Some(current), update.objects)
    else if update.phase.value == JobSucceeded then
      var refreshed := DeleteInspectorJob(update.objects, env.refresh, store);
      if refreshed.None? then StoreResult(Failed, Some(current), update.objects)
      else StoreResult(Migrating, Some(current), refreshed.value)
    else StoreResult(Migrating, Some(current), update.objects)
  }

  /**
   The backend's `SchemaVersion`: the cached answer of an inspected store, else a fresh
   read.  A schema pass follows a successful probe, which always caches.
   */
  function ReadVersion(spec: Spec, env: StoreEnv, store: Store, cache: Cache): Reading {
    if !spec.Inspected(store) then env.first
    else if store in cache then Version(cache[store].version)
    else ReadFailed
  }

  /** `reconcileStoreSchema`. */
  function ReconcileStoreSchema(spec: Spec, objects: Objects, env: StoreEnv, store: Store, cache: Cache,
                                minSchema: string): (r: StoreResult)
    ensures Untouched(objects, r.objects)
  {
    match ReadVersion(spec, env, store, cache)
    case ReadFailed => StoreResult(Failed, None, objects)
    case ReadInspecting => StoreResult(Inspecting, None, objects)
    case Version(current) =>
      if SchemaSatisfies(current, minSchema) then StoreResult(Done, Some(current), objects)
      else if spec.StoreSpecOf(store).kind == Elasticsearch then
        if env.applyFails then StoreResult(Failed, Some(current), objects)
        else
          match env.second
          case ReadFailed => StoreResult(Failed, Some(current), objects)
          case ReadInspecting => StoreResult(Inspecting, Some(current), objects)
          case Version(applied) =>
            StoreResult(if SchemaSatisfies(applied, minSchema) then Done else Migrating, Some(applied), objects)
      else ReconcileJobSchema(spec, objects, env, store, current)
  }

  // ----- the whole stage -----

  datatype Stage = Stage(status: Status, objects: Objects, failed: bool)

  function SetReachable(status: Status, reachable: bool): Status {
    status.(conditions := status.conditions.(reachable := reachable))
  }

  function SetSchemaReady(status: Status, ready: bool): Status {
    status.(conditions := status.conditions.(schemaReady := ready))
  }

  function Record(status: Status, store: Store, version: Option<string>): Status {
    if version.None? then status
    else status.(schemaVersions := status.schemaVersions[store := version.value])
  }

  /** The schema loop, with its `migrating` flag. */
  function SchemaAll(info: VersionInfo, spec: Spec, status: Status, objects: Objects, env: Env,
                     targets: seq<Store>, cache: Cache, migrating: bool): (r: Stage)
    ensures Untouched(objects, r.objects)
    decreases |targets|
  {
    if targets == [] then Stage(SetSchemaReady(status, !migrating), objects, false)
    else
      var store := targets[0];
      var r := ReconcileStoreSchema(spec, objects, env.StoreEnvOf(store), store, cache,
                                    MinSchemaFor(info, spec.StoreSpecOf(store).kind, store));
      var recorded := Record(status, store, r.version);
      match r.verdict
      case Failed => Stage(recorded, r.objects, true)
      case MigrationFailed => Stage(SetSchemaReady(recorded, false), r.objects, false)
      case Done => SchemaAll(info, spec, recorded, r.objects, env, targets[1..], cache, migrating)
      case _ => SchemaAll(info, spec, recorded, r.objects, env, targets[1..], cache, true)
  }

  const TARGETS: seq<Store> := [DefaultStore, VisibilityStore]

  /** `reconcilePersistence`; a failed stage returns an error to the reconcile. */
  function ReconcilePersistence(matrix: Matrix, spec: Spec, status: Status, objects: Objects, env: Env): (r: Stage)
    ensures Untouched(objects, r.objects)
  {
    if spec.workloadIdentity && env.serviceAccountFails then Stage(status, objects, true)
    else if env.targetsFail then Stage(SetReachable(status, false), objects, false)
    else
      var probed := ProbeAll(spec, objects, env, TARGETS, map[]);
      if !probed.reachable then Stage(SetReachable(status, false), probed.objects, false)
      else
        var reached := SetReachable(status, true);
        var info := LookupVersion(matrix, spec.version);
        if info.None? then Stage(reached, probed.objects, true)
        else SchemaAll(info.value, spec, reached, probed.objects, env, TARGETS, probed.cache, false)
  }

  // ----- what was observed -----

  /** During a reconcile that starts from `objects`, the store's backend reports schema version `v`. */
  ghost predicate Reads(spec: Spec, objects: Objects, env: Env, store: Store, v: string) {
    if spec.Inspected(store) then
      exists reachable :: FirstMessage(objects.PodsOf(store)) == Some(Answer(InspectResult(reachable, v)))
    else
      || env.StoreEnvOf(store).first == Version(v)
      || (spec.StoreSpecOf(store).kind == Elasticsearch && env.StoreEnvOf(store).second == Version(v))
  }

  /** The store was seen at a schema version that `version` accepts for it. */
  ghost predicate SeenReadyFor(matrix: Matrix, spec: Spec, objects: Objects, env: Env, store: Store, version: string) {
    && LookupVersion(matrix, version).Some?
    && exists v :: Reads(spec, objects, env, store, v)
         && SchemaSatisfies(v, MinSchemaFor(LookupVersion(matrix, version).value, spec.StoreSpecOf(store).kind, store))
  }

  ghost predicate AllSeenReadyFor(matrix: Matrix, spec: Spec, objects: Objects, env: Env, version: string) {
    forall store :: SeenReadyFor(matrix, spec, objects, env, store, version)
  }

  /** The store answered a probe: directly, or through an inspector's answer. */
  ghost predicate SeenReachable(spec: Spec, objects: Objects, env: Env, store: Store) {
    if spec.Inspected(store) then
      exists v :: FirstMessage(objects.PodsOf(store)) == Some(Answer(InspectResult(true, v)))
    else env.StoreEnvOf(store).probe == ProbeOk
  }
}
