/**
 One reconcile of a TemporalCluster (internal/controller/temporalcluster_controller.go,
 temporalcluster_mtls.go, temporalcluster_services.go) as a function, and runs of
 reconciles interleaved with spec edits and everything the environment may do.
 */
module Controller {
  import opened Wrappers
  import opened Versions
  import opened ClusterTypes
  import opened Persistence
  import opened Upgrades

  /** `reconcileMTLS`. */
  function ReconcileMTLS(spec: Spec, status: Status, objects: Objects, env: Env): Stage {
    if !spec.mtls then Stage(status, objects, false)
    else if env.mtlsApplyFails then Stage(status, objects, true)
    else
      var ready := !env.certificatesFailed && env.certificatesReady;
      Stage(status.(conditions := status.conditions.(mtlsReady := ready)), objects, false)
  }

  // ----- services -----

  function ApplyService(spec: Spec, deployments: map<Service, Deployment>, versions: Assignment, service: Service):
    map<Service, Deployment>
  {
    var version := if service in versions then versions[service] else "";
    var existing := if service in deployments then Some(deployments[service]) else None;
    deployments[service := Apply(existing, BuildDeployment(spec, service, version))]
  }

  function ApplyServices(spec: Spec, deployments: map<Service, Deployment>, versions: Assignment, services: seq<Service>):
    map<Service, Deployment>
    decreases |services|
  {
    if services == [] then deployments
    else
      var last := |services| - 1;
      ApplyService(spec, ApplyServices(spec, deployments, versions, services[..last]), versions, services[last])
  }

  /** The per-service part of `rollupServiceStatus`. */
  function Rollup(spec: Spec, deployments: map<Service, Deployment>, reported: map<Service, ServiceStatus>,
                  services: seq<Service>): map<Service, ServiceStatus>
    requires forall s :: s in services ==> s in deployments
    decreases |services|
  {
    if services == [] then reported
    else
      var last := |services| - 1;
      var d := deployments[services[last]];
      Rollup(spec, deployments, reported, services[..last])
        [services[last] := ServiceStatus(d.readyReplicas, d.Desired(), spec.version)]
  }

  predicate AllAvailable(deployments: map<Service, Deployment>, services: seq<Service>)
    requires forall s :: s in services ==> s in deployments
  {
    forall s :: s in services ==> deployments[s].readyReplicas >= 1
  }

  lemma AppliedExist(spec: Spec, deployments: map<Service, Deployment>, versions: Assignment, services: seq<Service>)
    ensures forall s :: s in services || s in deployments ==> s in ApplyServices(spec, deployments, versions, services)
    decreases |services|
  {
    if services != [] {
      var last := |services| - 1;
      AppliedExist(spec, deployments, versions, services[..last]);
      assert forall s :: s in services ==> s == services[last] || s in services[..last];
    }
  }

  /** `reconcileServices`, gated on the schema condition as it stands. */
  function ReconcileServices(spec: Spec, status: Status, objects: Objects, env: Env, versions: Assignment): Stage {
    if !status.conditions.schemaReady then Stage(status, objects, false)
    else if env.renderFails then Stage(status, objects, true)
    else
      var services := EnabledServices(spec);
      var upTo := if env.applied.Some? && env.applied.value < |services| then services[..env.applied.value] else services;
      var deployments := ApplyServices(spec, objects.deployments, versions, upTo);
      var applied := objects.(deployments := deployments);
      if env.applied.Some? || env.rollupGetFails then Stage(status, applied, true)
      else
        AppliedExist(spec, objects.deployments, versions, services);
        Stage(status.(services := Rollup(spec, deployments, status.services, services),
                      conditions := status.conditions.(available := AllAvailable(deployments, services))),
              applied, false)
  }

  /** `computeReadyAndPhase`. */
  function ComputeReadyAndPhase(spec: Spec, status: Status): Status {
    var c := status.conditions;
    var ready := c.reachable && c.schemaReady && c.available && (!spec.mtls || c.mtlsReady);
    var upgrading := status.upgrade.Some?;
    var phase :=
      if !c.reachable then PendingPhase
      else if !c.schemaReady then ProvisioningSchema
      else if upgrading then Upgrading
      else if !c.available then DeployingServices
      else ReadyPhase;
    status.(phase := phase,
            version := if ready && !upgrading then spec.version else status.version,
            conditions := c.(ready := ready))
  }

  // ----- one reconcile -----

  /**
   What a reconcile did: the status it computed (not yet written), the objects it left,
   the versions it assigned if it got that far, and whether it returned an error.
   */
  datatype Pass = Pass(status: Status, objects: Objects, versions: Option<Assignment>, failed: bool)

  function Reconcile(matrix: Matrix, spec: Spec, status: Status, objects: Objects, env: Env, now: nat): Pass {
    var p := ReconcilePersistence(matrix, spec, status, objects, env);
    if p.failed then Pass(p.status, p.objects, None, true)
    else
      var t := ReconcileMTLS(spec, p.status, p.objects, env);
      if t.failed then Pass(t.status, t.objects, None, true)
      else
        var u := ReconcileUpgrade(spec, t.status, t.objects, env, now);
        var s := ReconcileServices(spec, u.status, t.objects, env, u.versions);
        if s.failed || env.uiFails || env.monitoringFails then Pass(s.status, s.objects, Some(u.versions), true)
        else Pass(ComputeReadyAndPhase(spec, s.status), s.objects, Some(u.versions), false)
  }

  // ----- runs -----

  /**
   Everything outside the controller's memory: the clock, the resource's spec and
   persisted status, the cluster's objects, and the schema version in each database.
   */
  datatype World = World(now: nat, spec: Spec, status: Status, objects: Objects, databases: map<string, string>)

  datatype Step =
    | ReconcileStep(env: Env)
    | EditSpec(spec: Spec)
    | Environment(objects: Objects, databases: map<string, string>)

  /** What a reconcile starting in `w` computes. */
  function PassAt(matrix: Matrix, w: World, env: Env): Pass {
    Reconcile(matrix, w.spec, w.status, w.objects, env, w.now)
  }

  /** The status write succeeded: an error or a conflict keeps the objects but loses the status. */
  predicate Commits(matrix: Matrix, w: World, env: Env) {
    !PassAt(matrix, w, env).failed && env.write == Committed
  }

  function Next(matrix: Matrix, w: World, step: Step): World {
    match step
    case ReconcileStep(env) =>
      var pass := PassAt(matrix, w, env);
      w.(now := w.now + 1, objects := pass.objects,
         status := if Commits(matrix, w, env) then pass.status else w.status)
    case EditSpec(spec) => w.(now := w.now + 1, spec := spec)
    case Environment(objects, databases) => w.(now := w.now + 1, objects := objects, databases := databases)
  }

  /** Only a reconcile whose status is written changes the persisted status. */
  lemma StatusKept(matrix: Matrix, w: World, step: Step)
    requires step.ReconcileStep? ==> !Commits(matrix, w, step.env)
    ensures Next(matrix, w, step).status == w.status
  {
  }

  const NO_CONDITIONS := Conditions(false, false, false, false, false)
  const NEW_STATUS := Status(NO_CONDITIONS, "", None, NoPhase, map[], map[])

  /** A run: a freshly created resource, then any finite sequence of steps. */
  ghost predicate IsRun(matrix: Matrix, ws: seq<World>, steps: seq<Step>) {
    && |ws| == |steps| + 1
    && ws[0].status == NEW_STATUS
    && forall i :: 0 <= i < |steps| ==> ws[i + 1] == Next(matrix, ws[i], steps[i])
  }

  /** The upgrade record the reconcile at step `j` works on. */
  function RecordAt(ws: seq<World>, steps: seq<Step>, j: nat): Option<Upgrade>
    requires j < |steps| < |ws|
  {
    if steps[j].ReconcileStep? then WorkingRecord(ws[j].spec, ws[j].status, ws[j].now) else None
  }

  /** Step `j` is a reconcile working on the record that `up` is a state of. */
  ghost predicate Under(ws: seq<World>, steps: seq<Step>, j: nat, up: Upgrade)
    requires j < |steps| < |ws|
  {
    && RecordAt(ws, steps, j).Some?
    && RecordAt(ws, steps, j).value.startedAt == up.startedAt
    && RecordAt(ws, steps, j).value.from == up.from
    && RecordAt(ws, steps, j).value.to == up.to
  }
}
