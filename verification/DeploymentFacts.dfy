/**
 What reconciles do to the Deployments: which service gets which template, and when a
 template is the one the upgrade waits for.
 */
module DeploymentFacts {
  import opened Wrappers
  import opened Versions
  import opened ClusterTypes
  import opened Persistence
  import opened Upgrades
  import opened Controller
  import opened PassFacts

  /** The Deployment's template is the version's: what `RolledOut` asks of label and image. */
  predicate Templated(spec: Spec, d: Deployment, version: string) {
    && d.versionLabel == version
    && ImageOf(d.containers, SERVER_CONTAINER) == Some(ServerImage(spec, version))
  }

  predicate TemplatedAt(spec: Spec, deployments: map<Service, Deployment>, service: Service, version: string) {
    service in deployments && Templated(spec, deployments[service], version)
  }

  /** The Deployment controller has caught up with the template. */
  predicate CaughtUp(d: Deployment) {
    && d.generation == d.observedGeneration
    && d.updatedReplicas == d.Desired() && d.readyReplicas == d.Desired()
  }

  /** What the shared and the service's own pod template replace together; the service's own wins. */
  function EffectiveOverride(spec: Spec, service: Service): PodOverride {
    var own := if service in spec.serviceOverrides then spec.serviceOverrides[service] else NO_OVERRIDE;
    PodOverride(if own.versionLabel.Some? then own.versionLabel else spec.overrides.versionLabel,
                if own.image.Some? then own.image else spec.overrides.image)
  }

  /** The service's pod templates leave the version label and the server image as the operator generates them for `version`. */
  predicate Harmless(spec: Spec, service: Service, version: string) {
    var o := EffectiveOverride(spec, service);
    && o.versionLabel in {None, Some(version)}
    && o.image in {None, Some(ServerImage(spec, version))}
  }

  /** The service's Deployment has the template the operator generates for it at `version`. */
  predicate GeneratedFor(spec: Spec, deployments: map<Service, Deployment>, service: Service, version: string) {
    && service in deployments
    && deployments[service].versionLabel == BuildDeployment(spec, service, version).versionLabel
    && deployments[service].containers == BuildDeployment(spec, service, version).containers
  }

  /**
   Applying a service at the spec's version templates it there exactly when its pod templates
   are harmless; when they are not, no version does.
   */
  lemma ApplyTemplates(spec: Spec, existing: Option<Deployment>, service: Service, version: string)
    ensures var d := Apply(existing, BuildDeployment(spec, service, version));
            && (version == spec.version ==> (Templated(spec, d, spec.version) <==> Harmless(spec, service, spec.version)))
            && (!Harmless(spec, service, spec.version) ==> !Templated(spec, d, spec.version))
  {
    hide ServerImage;
    var t := BuildDeployment(spec, service, version);
    var d := Apply(existing, t);
    assert d.versionLabel == t.versionLabel && d.containers == t.containers;
    assert ImageOf(t.containers, SERVER_CONTAINER) == Some(t.containers[0].image);
    SameImage(spec);
  }

  lemma SameImage(spec: Spec)
    ensures ServerImage(spec, "") == ServerImage(spec, spec.version)
  {
  }

  lemma HarmfulIsNeverTemplated(spec: Spec, deployments: map<Service, Deployment>, service: Service, version: string)
    requires GeneratedFor(spec, deployments, service, version) && !Harmless(spec, service, spec.version)
    ensures !TemplatedAt(spec, deployments, service, spec.version)
  {
    hide ServerImage, Harmless, BuildDeployment;
    ApplyTemplates(spec, None, service, version);
  }

  lemma HarmlessIsTemplated(spec: Spec, deployments: map<Service, Deployment>, service: Service)
    requires GeneratedFor(spec, deployments, service, spec.version) && Harmless(spec, service, spec.version)
    ensures TemplatedAt(spec, deployments, service, spec.version)
  {
    hide ServerImage, Harmless, BuildDeployment;
    ApplyTemplates(spec, None, service, spec.version);
  }

  lemma RolledOutIsTemplated(spec: Spec, objects: Objects, env: Env, service: Service)
    requires ServiceRolledOut(spec, objects, env, service, spec.version)
    ensures TemplatedAt(spec, objects.deployments, service, spec.version)
  {
  }

  // ----- keeping templates -----

  /** The service has the same template in both, or a Deployment in neither. */
  predicate SameTemplate(before: map<Service, Deployment>, after: map<Service, Deployment>, service: Service) {
    && (service in before <==> service in after)
    && (service in before ==>
          && after[service].versionLabel == before[service].versionLabel
          && after[service].containers == before[service].containers)
  }

  /** Nothing but the operator creates, deletes or changes the templates of its Deployments. */
  ghost predicate TemplatesKept(before: map<Service, Deployment>, after: map<Service, Deployment>) {
    forall s :: SameTemplate(before, after, s)
  }

  lemma SameTemplateSameTarget(spec: Spec, before: map<Service, Deployment>, after: map<Service, Deployment>, service: Service)
    requires SameTemplate(before, after, service)
    ensures TemplatedAt(spec, before, service, spec.version) <==> TemplatedAt(spec, after, service, spec.version)
  {
    hide ImageOf, ServerImage;
  }

  // ----- applying -----

  lemma ServicesDistinct(spec: Spec)
    ensures forall i, j :: 0 <= i < j < |EnabledServices(spec)| ==> EnabledServices(spec)[i] != EnabledServices(spec)[j]
  {
  }

  lemma {:induction false} AppliedAt(spec: Spec, deployments: map<Service, Deployment>, versions: Assignment,
                                     services: seq<Service>, service: Service)
    requires forall i, j :: 0 <= i < j < |services| ==> services[i] != services[j]
    requires service in services && service in versions
    ensures var after := ApplyServices(spec, deployments, versions, services);
            && service in after
            && after[service] == Apply(if service in deployments then Some(deployments[service]) else None,
                                       BuildDeployment(spec, service, versions[service]))
    decreases |services|
  {
    hide BuildDeployment, Apply;
    var last := |services| - 1;
    var rest := services[..last];
    if services[last] == service {
      NotApplied(spec, deployments, versions, rest, service);
    } else {
      AppliedAt(spec, deployments, versions, rest, service);
    }
  }

  lemma {:induction false} NotApplied(spec: Spec, deployments: map<Service, Deployment>, versions: Assignment,
                                      services: seq<Service>, service: Service)
    requires service !in services
    ensures var after := ApplyServices(spec, deployments, versions, services);
            && (service in after <==> service in deployments)
            && (service in after ==> after[service] == deployments[service])
    decreases |services|
  {
    hide BuildDeployment, Apply;
    if services != [] {
      NotApplied(spec, deployments, versions, services[..|services| - 1], service);
    }
  }

  lemma AppliedIsGenerated(spec: Spec, before: map<Service, Deployment>, after: map<Service, Deployment>,
                           service: Service, version: string)
    requires service in after
    requires after[service] == Apply(if service in before then Some(before[service]) else None,
                                     BuildDeployment(spec, service, version))
    ensures GeneratedFor(spec, after, service, version)
  {
    hide BuildDeployment;
  }

  // ----- one pass -----

  /** The part of the services stage that reached the Deployments, whether or not the stage failed. */
  lemma StageDeployments(spec: Spec, status: Status, objects: Objects, env: Env, versions: Assignment, service: Service)
    requires service in EnabledServices(spec) ==> service in versions
    ensures var after := ReconcileServices(spec, status, objects, env, versions).objects.deployments;
            || SameTemplate(objects.deployments, after, service)
            || (Enabled(spec, service) && service in versions && GeneratedFor(spec, after, service, versions[service]))
  {
    hide ApplyServices, BuildDeployment, Rollup, EnabledServices;
    var services := EnabledServices(spec);
    ServicesDistinct(spec);
    EnabledListed(spec, service);
    var upTo := if env.applied.Some? && env.applied.value < |services| then services[..env.applied.value] else services;
    var after := ApplyServices(spec, objects.deployments, versions, upTo);
    assert forall s :: s in upTo ==> s in services;
    if service in upTo {
      AppliedAt(spec, objects.deployments, versions, upTo, service);
      AppliedIsGenerated(spec, objects.deployments, after, service, versions[service]);
    } else {
      NotApplied(spec, objects.deployments, versions, upTo, service);
    }
  }

  /**
   Whatever a pass finds and wherever it fails, a service leaves it with the template it had,
   or is enabled and leaves it with the one generated for the version the pass assigned it.
   */
  lemma PassDeployments(matrix: Matrix, w: World, env: Env, service: Service)
    ensures var after := PassAt(matrix, w, env).objects.deployments;
            || SameTemplate(w.objects.deployments, after, service)
            || (&& Enabled(w.spec, service) && Assigns(matrix, w, env)
                && service in PassAt(matrix, w, env).versions.value
                && GeneratedFor(w.spec, after, service, PassAt(matrix, w, env).versions.value[service]))
  {
    hide Mid, ReconcilePersistence, ReconcileUpgrade, ReconcileServices, ComputeReadyAndPhase, GeneratedFor, EnabledServices;
    if Assigns(matrix, w, env) {
      hide PassAt, Assigns, ReconcileMTLS;
      var p := ReconcilePersistence(matrix, w.spec, w.status, w.objects, env);
      var u := ReconcileUpgrade(w.spec, Mid(matrix, w, env), w.objects, env, w.now);
      AssigningPass(matrix, w, env);
      StageCovers(w.spec, Mid(matrix, w, env), w.objects, env, w.now, service);
      StageDeployments(w.spec, u.status, p.objects, env, u.versions, service);
    }
  }

  /** The upgrade stage assigns a version to exactly the enabled services. */
  lemma StageCovers(spec: Spec, status: Status, objects: Objects, env: Env, now: nat, service: Service)
    ensures service in EnabledServices(spec) <==> service in ReconcileUpgrade(spec, status, objects, env, now).versions
  {
    hide AdvanceUpgrade, WorkingRecord, EnabledServices;
  }
}
