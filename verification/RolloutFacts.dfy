/**
 What one reconcile does to the rollout, exactly: the transitions of the upgrade phases, the
 versions it hands out, the Deployments it leaves, and the conditions and phase it reports.
 */
module RolloutFacts {
  import opened Wrappers
  import opened Versions
  import opened ClusterTypes
  import opened Persistence
  import opened Upgrades
  import opened Controller
  import opened PassFacts
  import opened UpgradeRuns
  import opened DeploymentFacts
  import opened AssignmentRuns

  // ----- phases -----

  /** The pass can read the service's Deployment, and finds it rolled out at the version. */
  ghost predicate FindsRolled(w: World, env: Env, service: Service, version: string) {
    !env.deploymentGetFails && service in w.objects.deployments && FullyRolled(w.spec, w.objects.deployments[service], version)
  }

  /** The transition out of each phase, and what it waits for. */
  ghost predicate MovesTo(matrix: Matrix, w: World, env: Env, up: Upgrade, next: UpgradePhase) {
    match up.phase
    case Pending => next == PreflightChecks
    case PreflightChecks => next == SchemaMigrating && Mid(matrix, w, env).conditions.reachable
    case SchemaMigrating => next == RollingFrontend && Mid(matrix, w, env).conditions.schemaReady
    case RollingFrontend => next == RollingHistory && FindsRolled(w, env, Frontend, up.to)
    case RollingHistory => next == RollingMatching && FindsRolled(w, env, History, up.to)
    case RollingMatching =>
      next == (if w.spec.internalFrontend then RollingInternalFrontend else RollingWorker) && FindsRolled(w, env, Matching, up.to)
    case RollingInternalFrontend => next == RollingWorker && FindsRolled(w, env, InternalFrontend, up.to)
    case RollingWorker => next == PostUpgrade && FindsRolled(w, env, Worker, up.to)
    case PostUpgrade => next == Complete
    case Complete => false
  }

  /** A pass leaves its record's phase for another exactly along a transition whose condition it finds met. */
  lemma PassMovesExactly(matrix: Matrix, w: World, env: Env, next: UpgradePhase)
    requires WorkingRecord(w.spec, w.status, w.now).Some?
    ensures var up := WorkingRecord(w.spec, w.status, w.now).value;
            PassPhase(matrix, w, env) == next && next != up.phase <==> MovesTo(matrix, w, env, up, next)
  {
    hide WorkingRecord, PassPhase, Mid, FullyRolled, RolledOut;
    var up := WorkingRecord(w.spec, w.status, w.now).value;
    PassPhaseExactly(matrix, w, env);
    forall service | service in w.objects.deployments
      ensures RolledOut(w.spec, w.objects.deployments[service], up.to) <==> FullyRolled(w.spec, w.objects.deployments[service], up.to)
    {
      RolledOutExactly(w.spec, w.objects.deployments[service], up.to);
    }
  }

  /**
   Over any run: a written pass under a record leaves it persisted in the next phase exactly
   when it found what the phase waits for, and in the same phase otherwise, except that it
   closes a record that is Complete and makes its target the running version.
   */
  lemma WrittenPassMovesExactly(matrix: Matrix, ws: seq<World>, steps: seq<Step>, i: nat, next: UpgradePhase)
    requires IsRun(matrix, ws, steps) && i < |steps| && RecordAt(ws, steps, i).Some? && Commits(matrix, ws[i], steps[i].env)
    ensures |ws| == |steps| + 1
    ensures var up, after := RecordAt(ws, steps, i).value, ws[i + 1].status;
            if up.phase == Complete then after.upgrade.None? && after.version == up.to
            else
              && after.upgrade.Some? && SameRecord(after.upgrade.value, up) && after.version == ws[i].status.version
              && (after.upgrade.value.phase == next && next != up.phase <==> MovesTo(matrix, ws[i], steps[i].env, up, next))
  {
    var w, env := ws[i], steps[i].env;
    assert ws[i + 1] == Next(matrix, w, steps[i]);
    hide IsRun, PassAt, Mid, WorkingRecord, MovesTo, ReconcileUpgrade, Moves;
    PassOutcome(matrix, w, env);
    MidKeeps(matrix, w, env);
    WorkingRecordDepends(w.spec, w.status, Mid(matrix, w, env), w.now);
    UpgradeStageCases(w.spec, Mid(matrix, w, env), w.objects, env, w.now);
    PassMovesExactly(matrix, w, env, next);
    ClosedVersion(matrix, w, env);
  }

  /** Closing a record is the one way a version other than the one running gets recorded while a record is worked on. */
  lemma ClosedVersion(matrix: Matrix, w: World, env: Env)
    requires Commits(matrix, w, env) && WorkingRecord(w.spec, w.status, w.now).Some?
    ensures PassAt(matrix, w, env).status.upgrade.None? ==>
              PassAt(matrix, w, env).status.version == WorkingRecord(w.spec, w.status, w.now).value.to
  {
    hide PassAt, Mid;
    PassOutcome(matrix, w, env);
    MidKeeps(matrix, w, env);
    WorkingRecordDepends(w.spec, w.status, Mid(matrix, w, env), w.now);
    UpgradeStageCases(w.spec, Mid(matrix, w, env), w.objects, env, w.now);
    TargetIsSpec(w.spec, w.status, w.now);
  }

  lemma TargetIsSpec(spec: Spec, status: Status, now: nat)
    requires WorkingRecord(spec, status, now).Some?
    ensures WorkingRecord(spec, status, now).value.to == spec.version
  {
  }

  // ----- assigned versions -----

  /** The services that run the target in each phase. */
  function Reached(phase: UpgradePhase): set<Service> {
    match phase
    case RollingFrontend => {Frontend}
    case RollingHistory => {Frontend, History}
    case RollingMatching => {Frontend, History, Matching}
    case RollingInternalFrontend => {Frontend, History, Matching, InternalFrontend}
    case RollingWorker => {Frontend, History, Matching, InternalFrontend, Worker}
    case PostUpgrade => {Frontend, History, Matching, InternalFrontend, Worker}
    case Complete => {Frontend, History, Matching, InternalFrontend, Worker}
    case _ => {}
  }

  /**
   Every pass that gets to assigning versions, in any reachable state: without a record every
   enabled service gets the spec's version; under one, the enabled services its phase has
   reached get the target, and the others keep the source.
   */
  lemma AssignsExactly(matrix: Matrix, w: World, env: Env, service: Service)
    requires RecordConsistent(w) && Assigns(matrix, w, env)
    ensures var record, versions := WorkingRecord(w.spec, w.status, w.now), PassAt(matrix, w, env).versions.value;
            && (service in versions <==> service != InternalFrontend || w.spec.internalFrontend)
            && (service in versions ==>
                  versions[service] ==
                    if record.None? then w.spec.version
                    else if service in Reached(PassPhase(matrix, w, env)) then record.value.to
                    else record.value.from)
  {
    var m := Mid(matrix, w, env);
    hide PassAt, Mid, WorkingRecord, ReconcilePersistence, ReconcileMTLS, ReconcileServices, ComputeReadyAndPhase,
         ReconcileUpgrade, EnabledServices, OrderIndex, UpgradedThrough, Reached;
    AssigningPass(matrix, w, env);
    MidKeeps(matrix, w, env);
    WorkingRecordDepends(w.spec, w.status, m, w.now);
    WorkingRecordIsConsistent(w.spec, w.status, w.now);
    StageVersions(w.spec, m, w.objects, env, w.now);
    StageCovers(w.spec, m, w.objects, env, w.now, service);
    EnabledListed(w.spec, service);
    UpgradeStageCases(w.spec, m, w.objects, env, w.now);
    ReachedByIndex(PassPhase(matrix, w, env), service);
    if WorkingRecord(w.spec, w.status, w.now).Some? { LastIndex(service); }
  }

  lemma ReachedByIndex(phase: UpgradePhase, service: Service)
    ensures OrderIndex(service) <= UpgradedThrough(phase) <==> service in Reached(phase)
  {
  }

  // ----- Deployments -----

  /**
   The template generated for a service: the label and the image are the service's own pod
   template's, else the shared one's, else the version's; the replicas are the spec's, or one.
   */
  lemma BuiltExactly(spec: Spec, service: Service, version: string)
    ensures var t, o := BuildDeployment(spec, service, version), EffectiveOverride(spec, service);
            && t.versionLabel == (if o.versionLabel.Some? then o.versionLabel.value else if version != "" then version else spec.version)
            && t.containers == [Container("temporal", if o.image.Some? then o.image.value else ServerImage(spec, version))]
            && t.replicas == if service in spec.replicas then spec.replicas[service] else 1
  {
  }

  predicate Has(d: Deployment, t: Template) {
    d.versionLabel == t.versionLabel && d.containers == t.containers && d.replicas == Some(t.replicas)
  }

  /** The Deployment after an apply: nothing happens to one that has the template; any other gets it and one more generation. */
  ghost predicate Applied(existing: Option<Deployment>, t: Template, d: Deployment) {
    && Has(d, t)
    && (existing.None? ==> d.generation == 1 && d.observedGeneration == 0 && d.updatedReplicas == 0 && d.readyReplicas == 0)
    && (existing.Some? ==>
          && d.observedGeneration == existing.value.observedGeneration
          && d.updatedReplicas == existing.value.updatedReplicas && d.readyReplicas == existing.value.readyReplicas
          && (d.generation == existing.value.generation <==> Has(existing.value, t))
          && d.generation in {existing.value.generation, existing.value.generation + 1})
  }

  lemma AppliedExactly(existing: Option<Deployment>, t: Template)
    ensures Applied(existing, t, Apply(existing, t))
  {
  }

  /** The order in which services are applied. */
  function Sequence(spec: Spec): seq<Service> {
    if spec.internalFrontend then [Frontend, History, Matching, Worker, InternalFrontend] else [Frontend, History, Matching, Worker]
  }

  /** How many services the stage gets to: all of them, unless applying the next one fails. */
  function Reach(spec: Spec, env: Env): nat {
    if env.applied.Some? && env.applied.value < |Sequence(spec)| then env.applied.value else |Sequence(spec)|
  }

  /**
   The services stage.  With the schema not ready it does nothing, and that is no error.
   Otherwise it applies the enabled services in order, as far as it gets, each at the version
   it was assigned, and errs exactly when rendering, an apply or the roll-up fails.
   */
  lemma ServicesExactly(spec: Spec, status: Status, objects: Objects, env: Env, versions: Assignment, service: Service)
    requires service in EnabledServices(spec) ==> service in versions
    ensures var r := ReconcileServices(spec, status, objects, env, versions);
            var before, after := objects.deployments, r.objects.deployments;
            && (!status.conditions.schemaReady ==> r == Stage(status, objects, false))
            && (status.conditions.schemaReady ==>
                  && (r.failed <==> env.renderFails || env.applied.Some? || env.rollupGetFails)
                  && r.objects == objects.(deployments := after)
                  && (if !env.renderFails && service in Sequence(spec)[..Reach(spec, env)] then
                        && service in after
                        && Applied(if service in before then Some(before[service]) else None,
                                   BuildDeployment(spec, service, versions[service]), after[service])
                      else
                        && (service in after <==> service in before)
                        && (service in after ==> after[service] == before[service])))
  {
    hide ApplyServices, BuildDeployment, Rollup, Apply;
    var services := EnabledServices(spec);
    assert services == Sequence(spec);
    ServicesDistinct(spec);
    var upTo := if env.applied.Some? && env.applied.value < |services| then services[..env.applied.value] else services;
    assert upTo == Sequence(spec)[..Reach(spec, env)];
    if service in upTo {
      assert service in services;
      AppliedAt(spec, objects.deployments, versions, upTo, service);
      AppliedExactly(if service in objects.deployments then Some(objects.deployments[service]) else None,
                     BuildDeployment(spec, service, versions[service]));
    } else {
      NotApplied(spec, objects.deployments, versions, upTo, service);
    }
  }

  /** The Available condition after a stage that did its work: true exactly when every enabled service has a ready replica. */
  lemma AvailableExactly(spec: Spec, status: Status, objects: Objects, env: Env, versions: Assignment)
    ensures var r := ReconcileServices(spec, status, objects, env, versions);
            !r.failed && status.conditions.schemaReady ==>
              (r.status.conditions.available <==>
                 forall service :: service != InternalFrontend || spec.internalFrontend ==>
                   service in r.objects.deployments && r.objects.deployments[service].readyReplicas >= 1)
  {
    hide ApplyServices, Rollup;
    AppliedExist(spec, objects.deployments, versions, EnabledServices(spec));
    forall service ensures Enabled(spec, service) <==> service in EnabledServices(spec) { EnabledListed(spec, service); }
  }

  /**
   The service table after a stage that did its work: every enabled service with the ready and
   desired replicas of its own Deployment and the spec's version, and for others what was there.
   */
  lemma ServiceTableExactly(spec: Spec, status: Status, objects: Objects, env: Env, versions: Assignment, service: Service)
    ensures var r := ReconcileServices(spec, status, objects, env, versions);
            var before, after := status.services, r.status.services;
            !r.failed && status.conditions.schemaReady ==>
              if service != InternalFrontend || spec.internalFrontend then
                && service in after && service in r.objects.deployments
                && var d := r.objects.deployments[service];
                   after[service] == ServiceStatus(d.readyReplicas, if d.replicas.Some? then d.replicas.value else 1, spec.version)
              else
                && (service in after <==> service in before)
                && (service in after ==> after[service] == before[service])
  {
    hide ApplyServices, Rollup;
    var services := EnabledServices(spec);
    var deployments := ApplyServices(spec, objects.deployments, versions, services);
    AppliedExist(spec, objects.deployments, versions, services);
    EnabledListed(spec, service);
    RollupReports(spec, deployments, status.services, services, service);
  }

  // ----- certificates -----

  /** The mTLS stage: without mTLS nothing; else an error if applying fails, and otherwise the condition says whether all certificates are issued. */
  lemma CertificatesExactly(spec: Spec, status: Status, objects: Objects, env: Env)
    ensures var r := ReconcileMTLS(spec, status, objects, env);
            && r.objects == objects
            && (r.failed <==> spec.mtls && env.mtlsApplyFails)
            && (!spec.mtls || r.failed ==> r.status == status)
            && (spec.mtls && !r.failed ==>
                  && r.status == status.(conditions := status.conditions.(mtlsReady := r.status.conditions.mtlsReady))
                  && (r.status.conditions.mtlsReady <==> env.certificatesReady && !env.certificatesFailed))
  {
  }

  // ----- the whole pass -----

  /** A pass errs exactly when one of its stages does, and assigns versions exactly when it gets past the first two. */
  lemma PassFailsExactly(matrix: Matrix, w: World, env: Env)
    ensures var p := ReconcilePersistence(matrix, w.spec, w.status, w.objects, env);
            var pass := PassAt(matrix, w, env);
            && (pass.versions.Some? <==> !p.failed && !(w.spec.mtls && env.mtlsApplyFails))
            && (pass.failed <==>
                  || p.failed || (w.spec.mtls && env.mtlsApplyFails) || env.uiFails || env.monitoringFails
                  || (p.status.conditions.schemaReady && (env.renderFails || env.applied.Some? || env.rollupGetFails)))
  {
    hide ReconcilePersistence, ReconcileUpgrade, ReconcileServices, ComputeReadyAndPhase;
    var p := ReconcilePersistence(matrix, w.spec, w.status, w.objects, env);
    var t := ReconcileMTLS(w.spec, p.status, p.objects, env);
    var u := ReconcileUpgrade(w.spec, t.status, t.objects, env, w.now);
    UpgradeKeeps(w.spec, t.status, t.objects, env, w.now);
    StageCovers(w.spec, t.status, t.objects, env, w.now, Frontend);
    ServicesExactly(w.spec, u.status, t.objects, env, u.versions, Frontend);
  }

  // ----- the reported phase -----

  /** What each phase of the cluster says of the status it is written with. */
  predicate PhaseSays(s: Status) {
    match s.phase
    case NoPhase => false
    case PendingPhase => !s.conditions.reachable
    case ProvisioningSchema => s.conditions.reachable && !s.conditions.schemaReady
    case Upgrading => s.conditions.reachable && s.conditions.schemaReady && s.upgrade.Some?
    case DeployingServices => s.conditions.reachable && s.conditions.schemaReady && s.upgrade.None? && !s.conditions.available
    case ReadyPhase => s.conditions.reachable && s.conditions.schemaReady && s.upgrade.None? && s.conditions.available
  }

  /**
   Over any run, the persisted phase tells how the persisted conditions and record stand, and
   since the cases exclude each other it tells it exactly; before the first write there is none.
   */
  lemma {:induction false} PhaseTellsExactly(matrix: Matrix, ws: seq<World>, steps: seq<Step>, i: nat)
    requires IsRun(matrix, ws, steps) && i < |ws|
    ensures ws[i].status == NEW_STATUS || PhaseSays(ws[i].status)
  {
    if i > 0 {
      PhaseTellsExactly(matrix, ws, steps, i - 1);
      hide PassAt;
      var w, step := ws[i - 1], steps[i - 1];
      assert ws[i] == Next(matrix, w, step);
      if step.ReconcileStep? && Commits(matrix, w, step.env) { WrittenPhaseSays(matrix, w, step.env); }
    }
  }

  lemma WrittenPhaseSays(matrix: Matrix, w: World, env: Env)
    requires !PassAt(matrix, w, env).failed
    ensures PhaseSays(PassAt(matrix, w, env).status)
  {
    hide PassAt, Mid, ReconcilePersistence, ReconcileMTLS, ReconcileUpgrade, ReconcileServices, ComputeReadyAndPhase, PhaseSays;
    FailureFree(matrix, w, env);
    AssigningPass(matrix, w, env);
    var p := ReconcilePersistence(matrix, w.spec, w.status, w.objects, env);
    var u := ReconcileUpgrade(w.spec, Mid(matrix, w, env), w.objects, env, w.now);
    ComputedPhaseSays(w.spec, ReconcileServices(w.spec, u.status, p.objects, env, u.versions).status);
  }

  lemma ComputedPhaseSays(spec: Spec, status: Status)
    ensures PhaseSays(ComputeReadyAndPhase(spec, status))
  {
  }
}
