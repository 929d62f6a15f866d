/**
 The TemporalCluster controller as the source writes it: objects whose methods
 update status and API objects in place, stage by stage and loop by loop.  Every
 method is proved against the functions of `Persistence`, `Upgrades` and
 `Controller`, about which the run-level results are stated.
 */
module ClusterReconciler {
  import opened Wrappers
  import opened GoStrings
  import opened SchemaVersions
  import opened Versions
  import VersionQueries
  import opened ClusterTypes
  import P = Persistence
  import U = Upgrades
  import C = Controller
  import UpgradeRuns
  import SV = StoreVerdicts

  /** What the API server stores. */
  class ApiServer {
    var objects: Objects

    constructor (objects: Objects)
      ensures this.objects == objects
    {
      this.objects := objects;
    }
  }

  /** The resource being reconciled: the copy of it the reconcile works on. */
  class Cluster {
    const spec: Spec
    var status: Status

    constructor (spec: Spec, status: Status)
      ensures this.spec == spec && this.status == status
    {
      this.spec := spec;
      this.status := status;
    }
  }

  // ----- loops over Job conditions and pods -----

  method ClassifyJob(job: Job) returns (phase: P.JobPhase)
    ensures phase == P.ClassifyJob(job)
  {
    var i := 0;
    while i < |job.conditions|
      invariant 0 <= i <= |job.conditions|
      invariant P.Ending(job.conditions) == P.Ending(job.conditions[i..])
    {
      var c := job.conditions[i];
      if c.kind == JobComplete && c.isTrue {
        return P.JobSucceeded;
      }
      if c.kind == JobFailedType && c.isTrue {
        return P.JobFailed;
      }
      i := i + 1;
    }
    return if job.active > 0 then P.JobRunning else P.JobPending;
  }

  method JobIsTerminal(job: Job) returns (terminal: bool)
    ensures terminal <==> exists c :: c in job.conditions && c.isTrue && c.kind in {JobComplete, JobFailedType}
    ensures terminal <==> P.JobIsTerminal(job)
  {
    var i := 0;
    while i < |job.conditions|
      invariant 0 <= i <= |job.conditions|
      invariant P.Ending(job.conditions) == P.Ending(job.conditions[i..])
      invariant forall c :: c in job.conditions[..i] ==> !(c.isTrue && c.kind in {JobComplete, JobFailedType})
    {
      var c := job.conditions[i];
      if c.isTrue && (c.kind == JobComplete || c.kind == JobFailedType) {
        return true;
      }
      i := i + 1;
    }
    return false;
  }

  /** The nested scan of `inspectOnce` for the first termination message. */
  method FindMessage(pods: seq<Pod>) returns (message: Option<Message>)
    ensures message == P.FirstMessage(pods)
  {
    var i := 0;
    while i < |pods|
      invariant 0 <= i <= |pods|
      invariant P.AnsweringPod(pods) == P.AnsweringPod(pods[i..])
    {
      var statuses := pods[i].statuses;
      var k := 0;
      while k < |statuses|
        invariant 0 <= k <= |statuses|
        invariant P.MessageIn(statuses) == P.MessageIn(statuses[k..])
      {
        if statuses[k].name == P.INSPECT_CONTAINER && statuses[k].message.Some? {
          return statuses[k].message;
        }
        k := k + 1;
      }
      i := i + 1;
    }
    return None;
  }

  // ----- Jobs -----

  /** `ensureSchemaJob`; no phase is an error. */
  method EnsureSchemaJob(spec: Spec, api: ApiServer, env: StoreEnv, key: JobKey) returns (phase: Option<P.JobPhase>)
    modifies api
    ensures P.JobResult(phase, api.objects) == P.EnsureSchemaJob(spec, old(api.objects), env, key)
    ensures phase == Some(P.JobSucceeded) <==>
              && !(if key.action == Setup then env.setup else env.update).getFails
              && SV.Current(spec, old(api.objects).schemaJobs, key)
              && SV.EndsIn(old(api.objects).schemaJobs[key].conditions, JobComplete)
  {
    SV.SchemaJobExactly(spec, api.objects, env, key);
    hide SV.Current, SV.EndsIn;
    var calls := env.JobApi(key.action);
    if calls.getFails {
      return None;
    }
    if key !in api.objects.schemaJobs {
      if calls.createExists {
        return Some(P.JobPending);
      }
      if calls.createFails {
        return None;
      }
      api.objects := api.objects.(schemaJobs := api.objects.schemaJobs[key := P.BuildSchemaJob(spec, key.store)]);
      return Some(P.JobPending);
    }
    var job := api.objects.schemaJobs[key];
    if job.deleting {
      return Some(P.JobPending);
    }
    var current := RunsImage(job.containers, P.SCHEMA_CONTAINER, P.AdminToolsImage(spec.version));
    if !current {
      if calls.deleteFails {
        return None;
      }
      api.objects := api.objects.(schemaJobs := api.objects.schemaJobs[key := job.(deleting := true)]);
      return Some(P.JobPending);
    }
    var classified := ClassifyJob(job);
    return Some(classified);
  }

  /** `deleteInspectorJob`; false is an error. */
  method DeleteInspectorJob(api: ApiServer, calls: Api, store: Store) returns (ok: bool)
    modifies api
    ensures P.DeleteInspectorJob(old(api.objects), calls, store) == if ok then Some(api.objects) else None
    ensures !ok ==> api.objects == old(api.objects)
  {
    if calls.getFails {
      return false;
    }
    if store !in api.objects.inspectors {
      return true;
    }
    if calls.deleteFails {
      return false;
    }
    var job := api.objects.inspectors[store];
    api.objects := api.objects.(inspectors := api.objects.inspectors[store := job.(deleting := true)]);
    return true;
  }

  /** `ensureInspectorJob`. */
  method EnsureInspectorJob(spec: Spec, api: ApiServer, calls: Api, store: Store) returns (job: P.EnsuredJob)
    modifies api
    ensures P.EnsureResult(job, api.objects) == P.EnsureInspectorJob(spec, old(api.objects), calls, store)
  {
    if calls.getFails {
      return P.Unusable(P.InspectFailed);
    }
    if store !in api.objects.inspectors {
      if calls.createExists {
        return P.Unusable(P.StillInspecting);
      }
      if calls.createFails {
        return P.Unusable(P.InspectFailed);
      }
      var built := P.BuildInspectorJob(spec, store);
      api.objects := api.objects.(inspectors := api.objects.inspectors[store := built]);
      return P.Usable(built);
    }
    if api.objects.inspectors[store].deleting {
      return P.Unusable(P.StillInspecting);
    }
    return P.Usable(api.objects.inspectors[store]);
  }

  /** A store's backend.  One is built per store and reconcile; an inspected one caches its answer. */
  class Backend {
    const store: Store
    var cached: Option<InspectResult>

    constructor (store: Store)
      ensures this.store == store && cached == None
    {
      this.store := store;
      cached := None;
    }

    /** `inspectOnce`: the first answer of a reconcile is the answer for the rest of it. */
    method InspectOnce(spec: Spec, api: ApiServer, env: StoreEnv) returns (r: P.Inspection)
      modifies this, api
      ensures old(cached).Some? ==> r == P.Answered(old(cached).value) && cached == old(cached) && api.objects == old(api.objects)
      ensures old(cached).None? ==>
                && P.InspectionResult(r, api.objects) == P.InspectOnce(spec, old(api.objects), env, store)
                && cached == if r.Answered? then Some(r.result) else None
    {
      if cached.Some? {
        return P.Answered(cached.value);
      }
      var ensured := EnsureInspectorJob(spec, api, env.inspector, store);
      if ensured.Unusable? {
        return ensured.why;
      }
      if env.podListFails {
        return P.InspectFailed;
      }
      var message := FindMessage(api.objects.PodsOf(store));
      if message.Some? {
        if message.value.Garbage? {
          return P.InspectFailed;
        }
        cached := Some(message.value.result);
        return P.Answered(message.value.result);
      }
      var terminal := JobIsTerminal(ensured.job);
      if terminal {
        if env.inspector.deleteFails {
          return P.InspectFailed;
        }
        api.objects := api.objects.(inspectors := api.objects.inspectors[store := ensured.job.(deleting := true)]);
      }
      return P.StillInspecting;
    }

    /** `Probe`. */
    method Probe(spec: Spec, api: ApiServer, env: Env) returns (reachable: bool)
      requires cached.None?
      modifies this, api
      ensures var p := P.ProbeStore(spec, old(api.objects), env, store, map[]);
              && reachable == p.reachable && api.objects == p.objects
              && cached == if store in p.cache then Some(p.cache[store]) else None
    {
      if !spec.Inspected(store) {
        return env.StoreEnvOf(store).probe == ProbeOk;
      }
      var r := InspectOnce(spec, api, env.StoreEnvOf(store));
      return r.Answered? && r.result.reachable;
    }
  }

  // ----- upgrade -----

  method UniformVersions(spec: Spec, version: string) returns (out: U.Assignment)
    ensures out == U.UniformVersions(spec, version)
  {
    var services := U.EnabledServices(spec);
    out := map[];
    var i := 0;
    while i < |services|
      invariant 0 <= i <= |services|
      invariant out == map s | s in services[..i] :: version
    {
      out := out[services[i] := version];
      i := i + 1;
    }
    assert services[..|services|] == services;
  }

  /** The position of a service in the upgrade order, by the source's scan; -1 when absent. */
  method IndexInOrder(service: Service) returns (index: int)
    ensures index == U.OrderIndex(service)
  {
    index := -1;
    var i := 0;
    while i < |U.SERVICE_UPGRADE_ORDER|
      invariant 0 <= i <= |U.SERVICE_UPGRADE_ORDER|
      invariant index == if U.OrderIndex(service) < i then U.OrderIndex(service) else -1
    {
      if U.SERVICE_UPGRADE_ORDER[i] == service {
        index := i;
      }
      i := i + 1;
    }
  }

  /** The index of the service currently being rolled, or beyond. */
  method UpgradedThrough(phase: UpgradePhase) returns (through: int)
    ensures through == U.UpgradedThrough(phase)
  {
    through := -1;
    if phase == PostUpgrade || phase == Complete {
      through := |U.SERVICE_UPGRADE_ORDER| - 1;
    } else if U.RollingService(phase).Some? {
      through := IndexInOrder(U.RollingService(phase).value);
    }
  }

  method UpgradeServiceVersions(spec: Spec, up: Upgrade) returns (out: U.Assignment)
    ensures out == U.UpgradeServiceVersions(spec, up)
  {
    var through := UpgradedThrough(up.phase);
    hide U.EnabledServices, U.VersionFor;
    var services := U.EnabledServices(spec);
    out := map[];
    var i := 0;
    while i < |services|
      invariant 0 <= i <= |services|
      invariant forall s :: s in out <==> s in services[..i]
      invariant forall s :: s in out ==> out[s] == U.VersionFor(up, s)
    {
      var version := up.from;
      var index := IndexInOrder(services[i]);
      if index <= through {
        version := up.to;
      }
      VersionByIndex(up, services[i], index, through);
      out := out[services[i] := version];
      i := i + 1;
    }
    assert services[..|services|] == services;
  }

  lemma VersionByIndex(up: Upgrade, service: Service, index: int, through: int)
    requires index == U.OrderIndex(service) && through == U.UpgradedThrough(up.phase)
    ensures U.VersionFor(up, service) == if index <= through then up.to else up.from
  {
  }

  method ServiceRolledOut(spec: Spec, objects: Objects, env: Env, service: Service, version: string) returns (r: bool)
    ensures r == U.ServiceRolledOut(spec, objects, env, service, version)
    ensures r <==> && !env.deploymentGetFails && service in objects.deployments
                   && UpgradeRuns.FullyRolled(spec, objects.deployments[service], version)
  {
    if env.deploymentGetFails || service !in objects.deployments {
      return false;
    }
    var d := objects.deployments[service];
    if d.versionLabel != version {
      return false;
    }
    var runs := RunsImage(d.containers, U.SERVER_CONTAINER, U.ServerImage(spec, version));
    if !runs || d.generation != d.observedGeneration {
      return false;
    }
    var desired := 1;
    if d.replicas.Some? {
      desired := d.replicas.value;
    }
    return d.updatedReplicas == desired && d.readyReplicas == desired;
  }

  /** `advanceUpgrade` and `advanceRollingPhase`, in place. */
  method AdvanceUpgrade(cluster: Cluster, objects: Objects, env: Env)
    requires cluster.status.upgrade.Some?
    modifies cluster
    ensures cluster.status == U.AdvanceUpgrade(cluster.spec, old(cluster.status), objects, env)
  {
    var up := cluster.status.upgrade.value;
    match up.phase {
      case Pending =>
        up := up.(phase := PreflightChecks);
      case PreflightChecks =>
        if cluster.status.conditions.reachable {
          up := up.(rollbackable := false);
          up := up.(phase := SchemaMigrating);
        }
      case SchemaMigrating =>
        up := up.(rollbackable := false);
        if cluster.status.conditions.schemaReady {
          up := up.(phase := RollingFrontend);
        }
      case PostUpgrade =>
        up := up.(phase := Complete);
      case Complete =>
        cluster.status := cluster.status.(version := up.to);
        cluster.status := cluster.status.(upgrade := None);
        return;
      case _ =>
        var rolled := ServiceRolledOut(cluster.spec, objects, env, U.RollingService(up.phase).value, up.to);
        if rolled {
          up := up.(phase := U.NextRollingPhase(cluster.spec, up.phase));
        }
    }
    cluster.status := cluster.status.(upgrade := Some(up));
  }

  /** `reconcileUpgrade`, in place. */
  method ReconcileUpgrade(cluster: Cluster, objects: Objects, env: Env, now: nat) returns (versions: U.Assignment)
    modifies cluster
    ensures U.UpgradeStage(cluster.status, versions) == U.ReconcileUpgrade(cluster.spec, old(cluster.status), objects, env, now)
  {
    var current := cluster.status.version;
    var target := cluster.spec.version;
    if current == "" || current == target {
      cluster.status := cluster.status.(upgrade := None);
      versions := UniformVersions(cluster.spec, target);
      return;
    }
    if cluster.status.upgrade.None? || cluster.status.upgrade.value.to != target {
      cluster.status := cluster.status.(upgrade := Some(Upgrade(current, target, Pending, true, now)));
    }
    AdvanceUpgrade(cluster, objects, env);
    if cluster.status.upgrade.None? {
      versions := UniformVersions(cluster.spec, target);
      return;
    }
    versions := UpgradeServiceVersions(cluster.spec, cluster.status.upgrade.value);
  }

  // ----- persistence -----

  method SetSchemaReady(cluster: Cluster, ready: bool)
    modifies cluster
    ensures cluster.status == P.SetSchemaReady(old(cluster.status), ready)
  {
    cluster.status := cluster.status.(conditions := cluster.status.conditions.(schemaReady := ready));
  }

  method SetReachable(cluster: Cluster, reachable: bool)
    modifies cluster
    ensures cluster.status == P.SetReachable(old(cluster.status), reachable)
  {
    cluster.status := cluster.status.(conditions := cluster.status.conditions.(reachable := reachable));
  }

  /** `reconcileJobSchema`. */
  method ReconcileJobSchema(spec: Spec, api: ApiServer, env: StoreEnv, store: Store, current: string) returns (verdict: P.Verdict)
    modifies api
    ensures P.StoreResult(verdict, Some(current), api.objects) == P.ReconcileJobSchema(spec, old(api.objects), env, store, current)
  {
    if current == "" {
      var setup := EnsureSchemaJob(spec, api, env, JobKey(store, Setup));
      if setup.None? {
        return P.Failed;
      }
      if setup.value == P.JobFailed {
        return P.MigrationFailed;
      }
      if setup.value != P.JobSucceeded {
        return P.Migrating;
      }
    }
    var update := EnsureSchemaJob(spec, api, env, JobKey(store, Update));
    if update.None? {
      return P.Failed;
    }
    if update.value == P.JobFailed {
      return P.MigrationFailed;
    }
    if update.value == P.JobSucceeded {
      var ok := DeleteInspectorJob(api, env.refresh, store);
      if !ok {
        return P.Failed;
      }
    }
    return P.Migrating;
  }

  /** `reconcileStoreSchema`, recording each version it reads in the status. */
  method ReconcileStoreSchema(cluster: Cluster, api: ApiServer, env: StoreEnv, store: Store, cache: P.Cache, minSchema: string)
    returns (verdict: P.Verdict)
    modifies cluster, api
    ensures var r := P.ReconcileStoreSchema(cluster.spec, old(api.objects), env, store, cache, minSchema);
            verdict == r.verdict && api.objects == r.objects && cluster.status == P.Record(old(cluster.status), store, r.version)
  {
    hide P.ReconcileJobSchema, P.ReadVersion, SchemaSatisfies;
    var reading := P.ReadVersion(cluster.spec, env, store, cache);
    if reading.ReadFailed? {
      return P.Failed;
    }
    if reading.ReadInspecting? {
      return P.Inspecting;
    }
    var current := reading.version;
    cluster.status := cluster.status.(schemaVersions := cluster.status.schemaVersions[store := current]);
    var satisfied := Satisfies(current, minSchema);
    if satisfied {
      return P.Done;
    }
    if cluster.spec.StoreSpecOf(store).kind == Elasticsearch {
      if env.applyFails || env.second.ReadFailed? {
        return P.Failed;
      }
      if env.second.ReadInspecting? {
        return P.Inspecting;
      }
      current := env.second.version;
      cluster.status := cluster.status.(schemaVersions := cluster.status.schemaVersions[store := current]);
      satisfied := Satisfies(current, minSchema);
      return if satisfied then P.Done else P.Migrating;
    }
    verdict := ReconcileJobSchema(cluster.spec, api, env, store, current);
  }

  method Satisfies(current: string, required: string) returns (r: bool)
    ensures r == SchemaSatisfies(current, required)
  {
    var order := CompareSchemaVersions(current, required);
    return TrimSpace(current) != "" && order >= 0;
  }

  /** The probe loop over the backends; it stops at the first store that does not answer. */
  method ProbeAll(spec: Spec, api: ApiServer, env: Env, targets: seq<Store>) returns (reachable: bool, cache: P.Cache)
    modifies api
    ensures P.Probed(reachable, cache, api.objects) == P.ProbeAll(spec, old(api.objects), env, targets, map[])
  {
    cache := map[];
    var i := 0;
    while i < |targets|
      invariant 0 <= i <= |targets|
      invariant P.ProbeAll(spec, old(api.objects), env, targets, map[]) == P.ProbeAll(spec, api.objects, env, targets[i..], cache)
    {
      assert targets[i..][1..] == targets[i + 1..];
      var backend := new Backend(targets[i]);
      ghost var before := cache;
      ghost var objects := api.objects;
      reachable := backend.Probe(spec, api, env);
      if backend.cached.Some? {
        cache := cache[targets[i] := backend.cached.value];
      }
      ProbeExtends(spec, objects, env, targets[i], before);
      if !reachable {
        return;
      }
      i := i + 1;
    }
    reachable := true;
  }

  /** A probe adds its own answer to the cache and nothing else. */
  lemma ProbeExtends(spec: Spec, objects: Objects, env: Env, store: Store, cache: P.Cache)
    ensures var alone := P.ProbeStore(spec, objects, env, store, map[]);
            P.ProbeStore(spec, objects, env, store, cache)
            == alone.(cache := if store in alone.cache then cache[store := alone.cache[store]] else cache)
  {
    hide P.InspectOnce;
  }

  /** The schema loop, with its `migrating` flag; true is an error. */
  method SchemaAll(info: VersionInfo, cluster: Cluster, api: ApiServer, env: Env, targets: seq<Store>, cache: P.Cache)
    returns (failed: bool)
    modifies cluster, api
    ensures P.Stage(cluster.status, api.objects, failed)
         == P.SchemaAll(info, cluster.spec, old(cluster.status), old(api.objects), env, targets, cache, false)
  {
    hide P.ReconcileStoreSchema, P.MinSchemaFor;
    var migrating := false;
    var i := 0;
    while i < |targets|
      invariant 0 <= i <= |targets|
      invariant P.SchemaAll(info, cluster.spec, old(cluster.status), old(api.objects), env, targets, cache, false)
             == P.SchemaAll(info, cluster.spec, cluster.status, api.objects, env, targets[i..], cache, migrating)
    {
      assert targets[i..][1..] == targets[i + 1..];
      var store := targets[i];
      var minSchema := P.MinSchemaFor(info, cluster.spec.StoreSpecOf(store).kind, store);
      var verdict := ReconcileStoreSchema(cluster, api, env.StoreEnvOf(store), store, cache, minSchema);
      if verdict == P.Failed {
        return true;
      }
      if verdict == P.MigrationFailed {
        SetSchemaReady(cluster, false);
        return false;
      }
      if verdict != P.Done {
        migrating := true;
      }
      i := i + 1;
    }
    SetSchemaReady(cluster, !migrating);
    return false;
  }

  /** `reconcilePersistence`; true is an error. */
  method ReconcilePersistence(matrix: Matrix, cluster: Cluster, api: ApiServer, env: Env) returns (failed: bool)
    modifies cluster, api
    ensures P.Stage(cluster.status, api.objects, failed)
         == P.ReconcilePersistence(matrix, cluster.spec, old(cluster.status), old(api.objects), env)
  {
    hide P.ProbeAll, P.SchemaAll, LookupVersion;
    if cluster.spec.workloadIdentity && env.serviceAccountFails {
      return true;
    }
    if env.targetsFail {
      SetReachable(cluster, false);
      return false;
    }
    var reachable, cache := ProbeAll(cluster.spec, api, env, P.TARGETS);
    SetReachable(cluster, reachable);
    if !reachable {
      return false;
    }
    var info := VersionQueries.Lookup(matrix, cluster.spec.version);
    if info.None? {
      return true;
    }
    failed := SchemaAll(info.value, cluster, api, env, P.TARGETS, cache);
  }

  // ----- services -----

  /** The apply loop: every service of `services`, in order. */
  method ApplyServices(spec: Spec, api: ApiServer, versions: U.Assignment, services: seq<Service>)
    modifies api
    ensures api.objects == old(api.objects).(deployments := C.ApplyServices(spec, old(api.objects).deployments, versions, services))
  {
    hide C.ApplyService;
    var i := 0;
    while i < |services|
      invariant 0 <= i <= |services|
      invariant api.objects == old(api.objects).(deployments := C.ApplyServices(spec, old(api.objects).deployments, versions, services[..i]))
    {
      assert services[..i + 1][..i] == services[..i];
      api.objects := api.objects.(deployments := C.ApplyService(spec, api.objects.deployments, versions, services[i]));
      i := i + 1;
    }
    assert services[..|services|] == services;
  }

  /** `rollupServiceStatus`: fills `status.services` and the Available condition in one loop. */
  method RollupServiceStatus(cluster: Cluster, deployments: map<Service, Deployment>, services: seq<Service>)
    requires forall s :: s in services ==> s in deployments
    modifies cluster
    ensures cluster.status
         == old(cluster.status).(services := C.Rollup(cluster.spec, deployments, old(cluster.status).services, services),
                                 conditions := old(cluster.status).conditions.(available := C.AllAvailable(deployments, services)))
  {
    var allReady := true;
    var i := 0;
    while i < |services|
      invariant 0 <= i <= |services|
      invariant cluster.status
             == old(cluster.status).(services := C.Rollup(cluster.spec, deployments, old(cluster.status).services, services[..i]))
      invariant allReady <==> C.AllAvailable(deployments, services[..i])
    {
      assert services[..i + 1][..i] == services[..i];
      var d := deployments[services[i]];
      var desired := 1;
      if d.replicas.Some? {
        desired := d.replicas.value;
      }
      cluster.status := cluster.status.(services :=
        cluster.status.services[services[i] := ServiceStatus(d.readyReplicas, desired, cluster.spec.version)]);
      if d.readyReplicas < 1 {
        allReady := false;
      }
      i := i + 1;
    }
    assert services[..|services|] == services;
    cluster.status := cluster.status.(conditions := cluster.status.conditions.(available := allReady));
  }

  /** `reconcileServices`; true is an error. */
  method ReconcileServices(cluster: Cluster, api: ApiServer, env: Env, versions: U.Assignment) returns (failed: bool)
    modifies cluster, api
    ensures P.Stage(cluster.status, api.objects, failed)
         == C.ReconcileServices(cluster.spec, old(cluster.status), old(api.objects), env, versions)
  {
    hide C.ApplyServices, C.Rollup, C.AllAvailable, U.EnabledServices;
    if !cluster.status.conditions.schemaReady {
      return false;
    }
    if env.renderFails {
      return true;
    }
    var services := U.EnabledServices(cluster.spec);
    if env.applied.Some? {
      var upTo := if env.applied.value < |services| then services[..env.applied.value] else services;
      ApplyServices(cluster.spec, api, versions, upTo);
      return true;
    }
    ApplyServices(cluster.spec, api, versions, services);
    if env.rollupGetFails {
      return true;
    }
    C.AppliedExist(cluster.spec, old(api.objects).deployments, versions, services);
    RollupServiceStatus(cluster, api.objects.deployments, services);
    return false;
  }

  /** `computeReadyAndPhase`, in place. */
  method ComputeReadyAndPhase(cluster: Cluster)
    modifies cluster
    ensures cluster.status == C.ComputeReadyAndPhase(cluster.spec, old(cluster.status))
  {
    var c := cluster.status.conditions;
    var mtlsReady := !cluster.spec.mtls || c.mtlsReady;
    var ready := c.reachable && c.schemaReady && c.available && mtlsReady;
    var upgrading := cluster.status.upgrade.Some?;
    var phase := ReadyPhase;
    if !c.reachable {
      phase := PendingPhase;
    } else if !c.schemaReady {
      phase := ProvisioningSchema;
    } else if upgrading {
      phase := Upgrading;
    } else if !c.available {
      phase := DeployingServices;
    }
    cluster.status := cluster.status.(phase := phase);
    if ready && !upgrading {
      cluster.status := cluster.status.(version := cluster.spec.version);
    }
    cluster.status := cluster.status.(conditions := c.(ready := ready));
  }

  /** `reconcileMTLS`; true is an error. */
  method ReconcileMTLS(cluster: Cluster, env: Env, ghost objects: Objects) returns (failed: bool)
    modifies cluster
    ensures P.Stage(cluster.status, objects, failed) == C.ReconcileMTLS(cluster.spec, old(cluster.status), objects, env)
  {
    if !cluster.spec.mtls {
      return false;
    }
    if env.mtlsApplyFails {
      return true;
    }
    var ready := false;
    if !env.certificatesFailed && env.certificatesReady {
      ready := true;
    }
    cluster.status := cluster.status.(conditions := cluster.status.conditions.(mtlsReady := ready));
    return false;
  }

  /** `Reconcile` up to the status write: the stages in order, each working on what the one before left. */
  method Reconcile(matrix: Matrix, cluster: Cluster, api: ApiServer, env: Env, now: nat)
    returns (failed: bool, versions: Option<U.Assignment>)
    modifies cluster, api
    ensures C.Pass(cluster.status, api.objects, versions, failed)
         == C.Reconcile(matrix, cluster.spec, old(cluster.status), old(api.objects), env, now)
  {
    hide P.ReconcilePersistence, C.ReconcileMTLS, U.ReconcileUpgrade, C.ReconcileServices, C.ComputeReadyAndPhase;
    MTLSLeavesObjects();
    versions := None;
    failed := ReconcilePersistence(matrix, cluster, api, env);
    if failed {
      return;
    }
    failed := ReconcileMTLS(cluster, env, api.objects);
    if failed {
      return;
    }
    var handedOut := ReconcileUpgrade(cluster, api.objects, env, now);
    versions := Some(handedOut);
    failed := ReconcileServices(cluster, api, env, handedOut);
    if failed {
      return;
    }
    if env.uiFails || env.monitoringFails {
      failed := true;
      return;
    }
    ComputeReadyAndPhase(cluster);
  }

  lemma MTLSLeavesObjects()
    ensures forall spec, status, objects, env {:trigger C.ReconcileMTLS(spec, status, objects, env)} ::
              C.ReconcileMTLS(spec, status, objects, env).objects == objects
  {
  }
}
