/**
 The data the TemporalCluster controller reads and writes: the resource's spec
 and status, the cluster objects it manages, and what the outside world answers
 during one reconcile.
 */
module ClusterTypes {
  import opened Wrappers

  datatype Store = DefaultStore | VisibilityStore
  datatype Kind = Sql | Cassandra | Elasticsearch
  datatype Service = Frontend | History | Matching | InternalFrontend | Worker

  // ----- spec -----

  datatype StoreSpec = StoreSpec(kind: Kind, database: string)

  /** What a user pod template replaces in the generated server pods; absent means nothing is replaced. */
  datatype PodOverride = PodOverride(versionLabel: Option<string>, image: Option<string>)

  const NO_OVERRIDE := PodOverride(None, None)

  datatype Spec = Spec(
    version: string,
    image: string,
    internalFrontend: bool,
    mtls: bool,
    workloadIdentity: bool,
    defaultStore: StoreSpec,
    visibilityStore: StoreSpec,
    replicas: map<Service, nat>,
    overrides: PodOverride,
    serviceOverrides: map<Service, PodOverride>,
    schemaImage: Option<string>)
  {
    function StoreSpecOf(store: Store): StoreSpec {
      if store == DefaultStore then defaultStore else visibilityStore
    }

    /** The store is inspected by a Job instead of a direct connection. */
    predicate Inspected(store: Store) {
      workloadIdentity && StoreSpecOf(store).kind == Sql
    }
  }

  // ----- status -----

  /** Condition statuses; an absent condition is not true. */
  datatype Conditions = Conditions(reachable: bool, schemaReady: bool, available: bool, mtlsReady: bool, ready: bool)

  datatype UpgradePhase =
    | Pending | PreflightChecks | SchemaMigrating
    | RollingFrontend | RollingHistory | RollingMatching | RollingInternalFrontend | RollingWorker
    | PostUpgrade | Complete

  datatype Upgrade = Upgrade(from: string, to: string, phase: UpgradePhase, rollbackable: bool, startedAt: nat)

  datatype ClusterPhase = NoPhase | PendingPhase | ProvisioningSchema | Upgrading | DeployingServices | ReadyPhase

  datatype ServiceStatus = ServiceStatus(ready: nat, desired: nat, version: string)

  datatype Status = Status(
    conditions: Conditions,
    version: string,
    upgrade: Option<Upgrade>,
    phase: ClusterPhase,
    schemaVersions: map<Store, string>,
    services: map<Service, ServiceStatus>)

  // ----- cluster objects -----

  datatype Container = Container(name: string, image: string)

  datatype Deployment = Deployment(
    versionLabel: string,
    containers: seq<Container>,
    replicas: Option<nat>,
    generation: nat,
    observedGeneration: nat,
    updatedReplicas: nat,
    readyReplicas: nat)
  {
    function Desired(): nat { replicas.GetOr(1) }
  }

  datatype JobConditionType = JobComplete | JobFailedType | OtherCondition
  datatype JobCondition = JobCondition(kind: JobConditionType, isTrue: bool)

  /** A Job; `database` is the database its container's arguments name. */
  datatype Job = Job(containers: seq<Container>, conditions: seq<JobCondition>, active: nat, deleting: bool, database: string)

  datatype InspectResult = InspectResult(reachable: bool, version: string)

  /** A non-empty termination message: JSON the operator can decode, or anything else. */
  datatype Message = Answer(result: InspectResult) | Garbage

  /** `message` is absent while the container runs, or when it terminated silently. */
  datatype ContainerStatus = ContainerStatus(name: string, message: Option<Message>)

  /** A pod found under an inspector Job's name; `database` is the one its arguments name. */
  datatype Pod = Pod(database: string, statuses: seq<ContainerStatus>)

  datatype Action = Setup | Update
  datatype JobKey = JobKey(store: Store, action: Action)

  datatype Objects = Objects(
    deployments: map<Service, Deployment>,
    schemaJobs: map<JobKey, Job>,
    inspectors: map<Store, Job>,
    pods: map<Store, seq<Pod>>)
  {
    function PodsOf(store: Store): seq<Pod> {
      if store in pods then pods[store] else []
    }
  }

  // ----- what the outside world answers during one reconcile -----

  /** Failures the API server may report for one object's Get, Create and Delete. */
  datatype Api = Api(getFails: bool, createExists: bool, createFails: bool, deleteFails: bool)

  datatype ProbeAnswer = ProbeOk | ProbeInspecting | ProbeFailed
  datatype Reading = Version(version: string) | ReadInspecting | ReadFailed

  datatype StoreEnv = StoreEnv(
    probe: ProbeAnswer,
    first: Reading,
    applyFails: bool,
    second: Reading,
    inspector: Api,
    podListFails: bool,
    setup: Api,
    update: Api,
    refresh: Api)
  {
    function JobApi(action: Action): Api {
      if action == Setup then setup else update
    }
  }

  datatype Write = Committed | Conflict | WriteFailed

  datatype Env = Env(
    serviceAccountFails: bool,
    targetsFail: bool,
    defaultStore: StoreEnv,
    visibilityStore: StoreEnv,
    mtlsApplyFails: bool,
    certificatesReady: bool,
    certificatesFailed: bool,
    deploymentGetFails: bool,
    renderFails: bool,
    applied: Option<nat>,
    rollupGetFails: bool,
    uiFails: bool,
    monitoringFails: bool,
    write: Write)
  {
    function StoreEnvOf(store: Store): StoreEnv {
      if store == DefaultStore then defaultStore else visibilityStore
    }
  }

  // ----- containers -----

  /** The image of the first container with the given name. */
  function ImageOf(containers: seq<Container>, name: string): Option<string> {
    if containers == [] then None
    else if containers[0].name == name then Some(containers[0].image)
    else ImageOf(containers[1..], name)
  }

  /** The first container of the name runs the image. */
  ghost predicate Runs(containers: seq<Container>, name: string, image: string) {
    FirstIs(containers, (c: Container) => c.name == name, Container(name, image))
  }

  lemma {:induction false} ImageOfExactly(containers: seq<Container>, name: string, image: string)
    ensures ImageOf(containers, name) == Some(image) <==> Runs(containers, name, image)
  {
    if containers != [] {
      FirstOfRest(containers, (c: Container) => c.name == name, Container(name, image));
      ImageOfExactly(containers[1..], name, image);
    }
  }

  /** `deploymentRunsImage` and `jobRunsImage`: the loop over a pod template's containers. */
  method RunsImage(containers: seq<Container>, name: string, image: string) returns (r: bool)
    ensures r <==> Runs(containers, name, image)
    ensures r <==> ImageOf(containers, name) == Some(image)
  {
    ImageOfExactly(containers, name, image);
    var i := 0;
    while i < |containers|
      invariant 0 <= i <= |containers|
      invariant ImageOf(containers, name) == ImageOf(containers[i..], name)
    {
      if containers[i].name == name {
        return containers[i].image == image;
      }
      i := i + 1;
    }
    return false;
  }
}
