/**
 The version upgrade (internal/controller/temporalcluster_upgrade.go) and the
 Deployments it watches (internal/resources/deployment.go, services.go).
 */
module Upgrades {
  import opened Wrappers
  import opened Versions
  import opened ClusterTypes

  const SERVER_CONTAINER := "temporal"
  const SERVER_IMAGE_PREFIX := "temporalio/server:"

  /** `EnabledServices`: internal-frontend comes last, and only when enabled. */
  function EnabledServices(spec: Spec): seq<Service> {
    [Frontend, History, Matching, Worker] + (if spec.internalFrontend then [InternalFrontend] else [])
  }

  predicate Enabled(spec: Spec, service: Service) {
    service == InternalFrontend ==> spec.internalFrontend
  }

  /** Position in `serviceUpgradeOrder`. */
  function OrderIndex(service: Service): nat {
    match service
    case Frontend => 0
    case History => 1
    case Matching => 2
    case InternalFrontend => 3
    case Worker => 4
  }

  const SERVICE_UPGRADE_ORDER: seq<Service> := [Frontend, History, Matching, InternalFrontend, Worker]

  /** `rollingPhaseService`. */
  function RollingService(phase: UpgradePhase): Option<Service> {
    match phase
    case RollingFrontend => Some(Frontend)
    case RollingHistory => Some(History)
    case RollingMatching => Some(Matching)
    case RollingInternalFrontend => Some(InternalFrontend)
    case RollingWorker => Some(Worker)
    case _ => None
  }

  /** Index of the last service that runs the new version in the given phase, or -1. */
  function UpgradedThrough(phase: UpgradePhase): int {
    match phase
    case PostUpgrade => 4
    case Complete => 4
    case _ => if RollingService(phase).Some? then OrderIndex(RollingService(phase).value) else -1
  }

  type Assignment = map<Service, string>

  function UniformVersions(spec: Spec, version: string): Assignment {
    map service | service in EnabledServices(spec) :: version
  }

  /** The version a service runs under the record: the target once the order has reached it. */
  function VersionFor(up: Upgrade, service: Service): string {
    if OrderIndex(service) <= UpgradedThrough(up.phase) then up.to else up.from
  }

  function UpgradeServiceVersions(spec: Spec, up: Upgrade): Assignment {
    map service | service in EnabledServices(spec) :: VersionFor(up, service)
  }

  // ----- images and Deployments -----

  predicate IsDefaultServerImage(image: string) {
    SERVER_IMAGE_PREFIX <= image && ParseSemver(image[|SERVER_IMAGE_PREFIX|..]).Some?
  }

  function ServerImage(spec: Spec, version: string): string {
    if spec.image != "" && !IsDefaultServerImage(spec.image) then spec.image
    else SERVER_IMAGE_PREFIX + (if version == "" then spec.version else version)
  }

  /** The part of a service's Deployment that the operator owns, as `BuildDeployment` generates it. */
  datatype Template = Template(versionLabel: string, containers: seq<Container>, replicas: nat)

  /** `applyPodTemplate`, as far as the upgrade looks: the override's label and image win where it has them. */
  function ApplyPodTemplate(t: Template, o: PodOverride): Template {
    t.(versionLabel := o.versionLabel.GetOr(t.versionLabel),
       containers := if o.image.Some? then [Container(SERVER_CONTAINER, o.image.value)] else t.containers)
  }

  /** The generated Deployment, with the shared pod template and then the service's own laid over it. */
  function BuildDeployment(spec: Spec, service: Service, version: string): Template {
    var generated := Template(
      if version == "" then spec.version else version,
      [Container(SERVER_CONTAINER, ServerImage(spec, version))],
      if service in spec.replicas then spec.replicas[service] else 1);
    var shared := ApplyPodTemplate(generated, spec.overrides);
    if service in spec.serviceOverrides then ApplyPodTemplate(shared, spec.serviceOverrides[service]) else shared
  }

  /** Server-side apply: a changed template bumps the generation; the status is the Deployment controller's. */
  function Apply(existing: Option<Deployment>, t: Template): Deployment {
    match existing
    case None => Deployment(t.versionLabel, t.containers, Some(t.replicas), 1, 0, 0, 0)
    case Some(d) =>
      if d.versionLabel == t.versionLabel && d.containers == t.containers && d.replicas == Some(t.replicas) then d
      else d.(versionLabel := t.versionLabel, containers := t.containers, replicas := Some(t.replicas),
              generation := d.generation + 1)
  }

  /** The Deployment is fully rolled out at `version`: label, image, generation and both replica counts agree. */
  predicate RolledOut(spec: Spec, d: Deployment, version: string) {
    && d.versionLabel == version
    && ImageOf(d.containers, SERVER_CONTAINER) == Some(ServerImage(spec, version))
    && d.generation == d.observedGeneration
    && d.updatedReplicas == d.Desired()
    && d.readyReplicas == d.Desired()
  }

  predicate ServiceRolledOut(spec: Spec, objects: Objects, env: Env, service: Service, version: string) {
    && !env.deploymentGetFails
    && service in objects.deployments
    && RolledOut(spec, objects.deployments[service], version)
  }

  // ----- the phase machine -----

  function AfterMatchingPhase(spec: Spec): UpgradePhase {
    if spec.internalFrontend then RollingInternalFrontend else RollingWorker
  }

  function NextRollingPhase(spec: Spec, phase: UpgradePhase): UpgradePhase {
    match phase
    case RollingFrontend => RollingHistory
    case RollingHistory => RollingMatching
    case RollingMatching => AfterMatchingPhase(spec)
    case RollingInternalFrontend => RollingWorker
    case RollingWorker => PostUpgrade
    case _ => phase
  }

  /** `advanceUpgrade`: at most one step, from the conditions as they stand. */
  function AdvanceUpgrade(spec: Spec, status: Status, objects: Objects, env: Env): Status
    requires status.upgrade.Some?
  {
    var up := status.upgrade.value;
    match up.phase
    case Pending => status.(upgrade := Some(up.(phase := PreflightChecks)))
    case PreflightChecks =>
      if status.conditions.reachable then
        status.(upgrade := Some(up.(phase := SchemaMigrating, rollbackable := false)))
      else status
    case SchemaMigrating =>
      status.(upgrade := Some(up.(rollbackable := false,
                                  phase := if status.conditions.schemaReady then RollingFrontend else SchemaMigrating)))
    case PostUpgrade => status.(upgrade := Some(up.(phase := Complete)))
    case Complete => status.(upgrade := None, version := up.to)
    case _ =>
      if ServiceRolledOut(spec, objects, env, RollingService(up.phase).value, up.to) then
        status.(upgrade := Some(up.(phase := NextRollingPhase(spec, up.phase))))
      else status
  }

  /** The upgrade record a reconcile works on: none, the persisted one, or one it just created. */
  function WorkingRecord(spec: Spec, status: Status, now: nat): Option<Upgrade> {
    if status.version == "" || status.version == spec.version then None
    else if status.upgrade.None? || status.upgrade.value.to != spec.version then
      Some(Upgrade(status.version, spec.version, Pending, true, now))
    else status.upgrade
  }

  datatype UpgradeStage = UpgradeStage(status: Status, versions: Assignment)

  /** `reconcileUpgrade`. */
  function ReconcileUpgrade(spec: Spec, status: Status, objects: Objects, env: Env, now: nat): UpgradeStage {
    var record := WorkingRecord(spec, status, now);
    var started := status.(upgrade := record);
    if record.None? then UpgradeStage(started, UniformVersions(spec, spec.version))
    else
      var advanced := AdvanceUpgrade(spec, started, objects, env);
      UpgradeStage(advanced,
                   if advanced.upgrade.None? then UniformVersions(spec, spec.version)
                   else UpgradeServiceVersions(spec, advanced.upgrade.value))
  }
}
