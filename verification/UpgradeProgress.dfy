/**
 Progress: with a fixed spec and Deployments that keep catching up, an upgrade completes
 within a bound on the healthy reconciles that find work finished, however many failing
 and unwritten ones lie between, exactly unless some service ahead can never reach the
 target.
 */
module UpgradeProgress {
  import opened Wrappers
  import opened SchemaVersions
  import opened Versions
  import opened ClusterTypes
  import opened Persistence
  import opened Upgrades
  import opened Controller
  import opened PassFacts
  import opened UpgradeRuns
  import opened DeploymentFacts

  // ----- a reconcile without outside trouble -----

  predicate Satisfied(matrix: Matrix, spec: Spec, store: Store, v: string) {
    && LookupVersion(matrix, spec.version).Some?
    && SchemaSatisfies(v, MinSchemaFor(LookupVersion(matrix, spec.version).value, spec.StoreSpecOf(store).kind, store))
  }

  /** The store answers, at a schema the spec's version accepts. */
  ghost predicate StoreHealthy(matrix: Matrix, spec: Spec, objects: Objects, env: StoreEnv, store: Store) {
    if spec.Inspected(store) then
      && env.inspector == Api(false, false, false, false) && !env.podListFails
      && (store in objects.inspectors ==> !objects.inspectors[store].deleting)
      && exists v :: Satisfied(matrix, spec, store, v)
           && FirstMessage(objects.PodsOf(store)) == Some(Answer(InspectResult(true, v)))
    else
      env.probe == ProbeOk && env.first.Version? && Satisfied(matrix, spec, store, env.first.version)
  }

  /** No call of the reconcile fails, every store is healthy, and the status is written. */
  ghost predicate Healthy(matrix: Matrix, w: World, env: Env) {
    && !env.serviceAccountFails && !env.targetsFail && !env.mtlsApplyFails && !env.deploymentGetFails
    && !env.renderFails && env.applied.None? && !env.rollupGetFails && !env.uiFails && !env.monitoringFails
    && env.write == Committed
    && StoreHealthy(matrix, w.spec, w.objects, env.defaultStore, DefaultStore)
    && StoreHealthy(matrix, w.spec, w.objects, env.visibilityStore, VisibilityStore)
  }

  lemma HealthyProbe(matrix: Matrix, spec: Spec, objects: Objects, env: Env, store: Store, cache: Cache)
    requires StoreHealthy(matrix, spec, objects, env.StoreEnvOf(store), store)
    ensures var p := ProbeStore(spec, objects, env, store, cache);
            && p.reachable
            && (forall s :: s != store ==>
                  (s in p.objects.inspectors <==> s in objects.inspectors)
                  && (s in objects.inspectors ==> p.objects.inspectors[s] == objects.inspectors[s]))
            && (forall s :: s != store && s in cache ==> s in p.cache && p.cache[s] == cache[s])
            && (spec.Inspected(store) ==> store in p.cache && Satisfied(matrix, spec, store, p.cache[store].version))
            && (spec.Inspected(store) ==> store in p.objects.inspectors && !p.objects.inspectors[store].deleting)
  {
    hide SchemaSatisfies, MinSchemaFor, LookupVersion;
  }

  lemma HealthyProbes(matrix: Matrix, w: World, env: Env)
    requires Healthy(matrix, w, env)
    ensures var p := ProbeAll(w.spec, w.objects, env, TARGETS, map[]);
            && p.reachable
            && (forall store: Store :: w.spec.Inspected(store) ==>
                  && store in p.cache && Satisfied(matrix, w.spec, store, p.cache[store].version)
                  && store in p.objects.inspectors && !p.objects.inspectors[store].deleting)
  {
    hide ProbeStore, Satisfied, FirstMessage;
    HealthyProbe(matrix, w.spec, w.objects, env, DefaultStore, map[]);
    var first := ProbeStore(w.spec, w.objects, env, DefaultStore, map[]);
    assert first.objects.PodsOf(VisibilityStore) == w.objects.PodsOf(VisibilityStore);
    HealthyProbe(matrix, w.spec, first.objects, env, VisibilityStore, first.cache);
    var second := ProbeStore(w.spec, first.objects, env, VisibilityStore, first.cache);
    assert TARGETS[1..] == [VisibilityStore];
    assert ProbeAll(w.spec, second.objects, env, [], second.cache) == Probed(true, second.cache, second.objects);
    assert ProbeAll(w.spec, first.objects, env, [VisibilityStore], first.cache) == Probed(true, second.cache, second.objects);
  }

  lemma HealthyStoreIsDone(matrix: Matrix, spec: Spec, objects: Objects, env: StoreEnv, store: Store, cache: Cache)
    requires LookupVersion(matrix, spec.version).Some?
    requires if spec.Inspected(store) then store in cache && Satisfied(matrix, spec, store, cache[store].version)
             else env.first.Version? && Satisfied(matrix, spec, store, env.first.version)
    ensures var r := ReconcileStoreSchema(spec, objects, env, store, cache,
                                          MinSchemaFor(LookupVersion(matrix, spec.version).value, spec.StoreSpecOf(store).kind, store));
            r.verdict == Done && r.objects == objects
  {
    hide SchemaSatisfies, MinSchemaFor, LookupVersion, ReconcileJobSchema;
  }

  /** Healthy stores make both persistence conditions true, and their inspectors are left in place. */
  lemma HealthyPersistence(matrix: Matrix, w: World, env: Env)
    requires Healthy(matrix, w, env)
    ensures var p := ReconcilePersistence(matrix, w.spec, w.status, w.objects, env);
            && !p.failed && p.status.conditions.reachable && p.status.conditions.schemaReady
            && (forall store: Store :: w.spec.Inspected(store) && store in p.objects.inspectors ==>
                  !p.objects.inspectors[store].deleting)
  {
    hide ProbeAll, ReconcileStoreSchema, LookupVersion, MinSchemaFor, FirstMessage, SchemaSatisfies;
    HealthyProbes(matrix, w, env);
    var probed := ProbeAll(w.spec, w.objects, env, TARGETS, map[]);
    var info := LookupVersion(matrix, w.spec.version);
    assert info.Some?;
    hide Satisfied, StoreHealthy;
    SchemaLoopFinishes(matrix, w, env, probed, SetReachable(w.status, true), probed.objects, 0);
    assert TARGETS[0..] == TARGETS;
  }

  lemma SchemaLoopFinishes(matrix: Matrix, w: World, env: Env, probed: Probed, status: Status, objects: Objects, k: nat)
    requires Healthy(matrix, w, env) && LookupVersion(matrix, w.spec.version).Some? && k <= 2
    requires forall store: Store :: w.spec.Inspected(store) ==>
               store in probed.cache && Satisfied(matrix, w.spec, store, probed.cache[store].version)
    ensures var p := SchemaAll(LookupVersion(matrix, w.spec.version).value, w.spec, status, objects, env,
                               TARGETS[k..], probed.cache, false);
            && !p.failed && p.status.conditions.schemaReady && p.status.conditions.reachable == status.conditions.reachable
            && p.objects == objects
    decreases 2 - k
  {
    hide ReconcileStoreSchema, LookupVersion, MinSchemaFor, FirstMessage, Satisfied;
    if k < 2 {
      var store := TARGETS[k];
      var info := LookupVersion(matrix, w.spec.version).value;
      HealthyStoreIsDone(matrix, w.spec, objects, env.StoreEnvOf(store), store, probed.cache);
      var r := ReconcileStoreSchema(w.spec, objects, env.StoreEnvOf(store), store, probed.cache,
                                    MinSchemaFor(info, w.spec.StoreSpecOf(store).kind, store));
      assert TARGETS[k..][1..] == TARGETS[k + 1..];
      SchemaLoopFinishes(matrix, w, env, probed, Record(status, store, r.version), r.objects, k + 1);
    }
  }

  /** A healthy reconcile commits, sees both conditions true, and applies every enabled service. */
  lemma HealthyPass(matrix: Matrix, w: World, env: Env)
    requires Healthy(matrix, w, env)
    ensures Commits(matrix, w, env)
    ensures Mid(matrix, w, env).conditions.reachable && Mid(matrix, w, env).conditions.schemaReady
    ensures var u := ReconcileUpgrade(w.spec, Mid(matrix, w, env), w.objects, env, w.now);
            && Next(matrix, w, ReconcileStep(env)).objects.deployments
               == ApplyServices(w.spec, w.objects.deployments, u.versions, EnabledServices(w.spec))
            && Next(matrix, w, ReconcileStep(env)).status.upgrade == u.status.upgrade
            && Next(matrix, w, ReconcileStep(env)).status.version in {u.status.version, w.spec.version}
            && (u.status.upgrade.Some? ==> Next(matrix, w, ReconcileStep(env)).status.version == u.status.version)
  {
    HealthyAssigns(matrix, w, env);
    var p := ReconcilePersistence(matrix, w.spec, w.status, w.objects, env);
    var u := ReconcileUpgrade(w.spec, Mid(matrix, w, env), w.objects, env, w.now);
    hide PassAt, Mid, ReconcilePersistence, ReconcileMTLS, ReconcileUpgrade, ReconcileServices, StoreHealthy, ApplyServices;
    AssigningPass(matrix, w, env);
    UpgradeKeeps(w.spec, Mid(matrix, w, env), w.objects, env, w.now);
    HealthyServices(w.spec, u.status, p.objects, env, u.versions);
  }

  lemma HealthyAssigns(matrix: Matrix, w: World, env: Env)
    requires Healthy(matrix, w, env)
    ensures Assigns(matrix, w, env)
    ensures Mid(matrix, w, env).conditions.reachable && Mid(matrix, w, env).conditions.schemaReady
  {
    HealthyPersistence(matrix, w, env);
    hide ReconcilePersistence, StoreHealthy, ReconcileUpgrade, ReconcileServices, ComputeReadyAndPhase;
  }

  lemma HealthyServices(spec: Spec, status: Status, objects: Objects, env: Env, versions: Assignment)
    requires status.conditions.schemaReady && !env.renderFails && env.applied.None? && !env.rollupGetFails
    ensures var s := ReconcileServices(spec, status, objects, env, versions);
            && !s.failed
            && s.objects.deployments == ApplyServices(spec, objects.deployments, versions, EnabledServices(spec))
            && s.status.upgrade == status.upgrade && s.status.version == status.version
  {
    hide ApplyServices, Rollup, AllAvailable;
  }

  // ----- the rank -----

  /** How many more phase changes close the record. */
  function Rank(spec: Spec, phase: UpgradePhase): nat {
    var beforeWorker := if spec.internalFrontend then 4 else 3;
    match phase
    case Complete => 1
    case PostUpgrade => 2
    case RollingWorker => 3
    case RollingInternalFrontend => 4
    case RollingMatching => beforeWorker + 1
    case RollingHistory => beforeWorker + 2
    case RollingFrontend => beforeWorker + 3
    case SchemaMigrating => beforeWorker + 4
    case PreflightChecks => beforeWorker + 5
    case Pending => beforeWorker + 6
  }

  /** Phase changes left before the running version is the spec's. */
  function Remaining(w: World): nat {
    var up := WorkingRecord(w.spec, w.status, w.now);
    if up.None? then 0 else Rank(w.spec, up.value.phase)
  }

  /** At most ten phase changes with internal-frontend, nine without. */
  lemma RemainingIsBounded(w: World)
    ensures Remaining(w) <= if w.spec.internalFrontend then 10 else 9
  {
  }

  // ----- the phase under a fixed spec -----

  /** The phase of the record a reconcile would work on. */
  function CurrentPhase(w: World): Option<UpgradePhase> {
    var up := WorkingRecord(w.spec, w.status, w.now);
    if up.None? then None else Some(up.value.phase)
  }

  lemma RemainingIsRank(w: World)
    ensures Remaining(w) == if CurrentPhase(w).None? then 0 else Rank(w.spec, CurrentPhase(w).value)
    ensures Remaining(w) == 0 <==> CurrentPhase(w).None?
    ensures Remaining(w) == 0 <==> w.status.version in {"", w.spec.version}
  {
  }

  lemma RankOfSuccessor(spec: Spec, phase: UpgradePhase)
    requires phase != Complete
    ensures Rank(spec, Successor(spec, phase)) == Rank(spec, phase) - 1
  {
  }

  /** The phase waits for a service that this reconcile does not find rolled out. */
  predicate Blocked(spec: Spec, phase: UpgradePhase, objects: Objects, env: Env) {
    RollingService(phase).Some? && !ServiceRolledOut(spec, objects, env, RollingService(phase).value, spec.version)
  }

  /** With the spec unchanged a step keeps the phase or moves one position, and leaves a rolling phase only past its guard. */
  lemma PhaseStep(matrix: Matrix, w: World, step: Step)
    requires !step.EditSpec?
    ensures var p, q := CurrentPhase(w), CurrentPhase(Next(matrix, w, step));
            && (p.None? ==> q.None?)
            && (p.Some? && q != p ==>
                  && step.ReconcileStep? && !Blocked(w.spec, p.value, w.objects, step.env)
                  && q == (if p.value == Complete then None else Some(Successor(w.spec, p.value))))
    ensures Next(matrix, w, step).spec == w.spec
  {
    hide PassAt, Mid, ServiceRolledOut;
    if step.ReconcileStep? && Commits(matrix, w, step.env) {
      PassOutcome(matrix, w, step.env);
      MidKeeps(matrix, w, step.env);
      UpgradeStageCases(w.spec, Mid(matrix, w, step.env), w.objects, step.env, w.now);
    } else {
      StatusKept(matrix, w, step);
    }
  }

  /** The rank never grows while the spec stays as it is, whatever fails. */
  lemma RankNeverGrows(matrix: Matrix, w: World, step: Step)
    requires !step.EditSpec?
    ensures Remaining(Next(matrix, w, step)) <= Remaining(w)
    ensures Remaining(Next(matrix, w, step)) == Remaining(w) <==> CurrentPhase(Next(matrix, w, step)) == CurrentPhase(w)
    ensures Next(matrix, w, step).spec == w.spec
  {
    hide Next, Blocked, WorkingRecord, Rank, Remaining, CurrentPhase;
    PhaseStep(matrix, w, step);
    var next := Next(matrix, w, step);
    RemainingIsRank(w);
    RemainingIsRank(next);
    var p := CurrentPhase(w);
    if p.Some? && p.value != Complete { RankOfSuccessor(w.spec, p.value); }
  }

  // ----- what the rolling service is like -----

  /** The service being rolled, if any, has caught up with its template. */
  predicate Settled(w: World) {
    var p := CurrentPhase(w);
    p.Some? && RollingService(p.value).Some? ==>
      && RollingService(p.value).value in w.objects.deployments
      && CaughtUp(w.objects.deployments[RollingService(p.value).value])
  }

  /** The service being rolled, if any, already has the target template. */
  predicate Primed(w: World) {
    var p := CurrentPhase(w);
    p.Some? && RollingService(p.value).Some? ==>
      TemplatedAt(w.spec, w.objects.deployments, RollingService(p.value).value, w.spec.version)
  }

  /** The record is at or before the service's phase, and will not skip it. */
  predicate Ahead(spec: Spec, phase: UpgradePhase, service: Service) {
    || RollingService(phase) == Some(service)
    || (Position(phase) < Position(RollingPhase(service)) && Enabled(spec, service))
  }

  /** The phase that rolls a service. */
  function RollingPhase(service: Service): (phase: UpgradePhase)
    ensures RollingService(phase) == Some(service)
  {
    match service
    case Frontend => RollingFrontend
    case History => RollingHistory
    case Matching => RollingMatching
    case InternalFrontend => RollingInternalFrontend
    case Worker => RollingWorker
  }

  /** Moving one phase on adds no service to those ahead. */
  lemma AheadShrinks(spec: Spec, phase: UpgradePhase, service: Service)
    requires phase != Complete && Ahead(spec, Successor(spec, phase), service)
    ensures Ahead(spec, phase, service) && Enabled(spec, service)
  {
  }

  lemma AheadStays(spec: Spec, phase: UpgradePhase, service: Service)
    requires Ahead(spec, phase, service) && RollingService(phase) != Some(service)
    ensures phase != Complete && Ahead(spec, Successor(spec, phase), service)
  {
  }

  /**
   Nothing ahead can block the upgrade for good: a service the operator deploys has harmless
   overrides, and one it no longer deploys was left templated at the target.
   */
  predicate Clear(w: World) {
    var p := CurrentPhase(w);
    p.Some? ==> forall s :: Ahead(w.spec, p.value, s) ==>
      if Enabled(w.spec, s) then Harmless(w.spec, s, w.spec.version)
      else TemplatedAt(w.spec, w.objects.deployments, s, w.spec.version)
  }

  /** The service is ahead, is not templated at the target, and the operator will never template it there. */
  predicate Immovable(w: World, service: Service) {
    var p := CurrentPhase(w);
    && p.Some? && Ahead(w.spec, p.value, service)
    && !TemplatedAt(w.spec, w.objects.deployments, service, w.spec.version)
    && (!Enabled(w.spec, service) || !Harmless(w.spec, service, w.spec.version))
  }

  predicate Doomed(w: World) {
    exists s :: Immovable(w, s)
  }

  // ----- steps under a fixed spec -----

  /** The spec is not edited, and the environment leaves templates alone. */
  ghost predicate Undisturbed(w: World, step: Step) {
    match step
    case ReconcileStep(_) => true
    case EditSpec(_) => false
    case Environment(objects, _) => TemplatesKept(w.objects.deployments, objects.deployments)
  }

  /** What an undisturbed step does to one service's template: nothing, or what the operator generates for it. */
  lemma TemplateStep(matrix: Matrix, w: World, step: Step, service: Service)
    requires Undisturbed(w, step)
    ensures var next := Next(matrix, w, step);
            || SameTemplate(w.objects.deployments, next.objects.deployments, service)
            || (&& step.ReconcileStep? && Enabled(w.spec, service) && Assigns(matrix, w, step.env)
                && service in PassAt(matrix, w, step.env).versions.value
                && GeneratedFor(w.spec, next.objects.deployments, service, PassAt(matrix, w, step.env).versions.value[service]))
  {
    hide PassAt, Assigns, GeneratedFor;
    if step.ReconcileStep? {
      PassDeployments(matrix, w, step.env, service);
    }
  }

  /** A service the record is rolling, or has rolled, is assigned the spec's version by every pass. */
  lemma RollingIsAssigned(matrix: Matrix, w: World, env: Env, service: Service)
    requires Assigns(matrix, w, env) && service in PassAt(matrix, w, env).versions.value
    requires CurrentPhase(w).Some? && OrderIndex(service) <= UpgradedThrough(CurrentPhase(w).value)
    ensures PassAt(matrix, w, env).versions.value[service] == w.spec.version
  {
    var m := Mid(matrix, w, env);
    hide PassAt, Mid, ReconcilePersistence, ReconcileMTLS, ReconcileServices, ComputeReadyAndPhase, ServiceRolledOut, Assigns;
    AssigningPass(matrix, w, env);
    MidKeeps(matrix, w, env);
    WorkingRecordDepends(w.spec, w.status, m, w.now);
    StageAssigns(w.spec, m, w.objects, env, w.now, service);
  }

  lemma StageAssigns(spec: Spec, status: Status, objects: Objects, env: Env, now: nat, service: Service)
    requires var r := WorkingRecord(spec, status, now);
             r.Some? && OrderIndex(service) <= UpgradedThrough(r.value.phase)
    requires service in ReconcileUpgrade(spec, status, objects, env, now).versions
    ensures ReconcileUpgrade(spec, status, objects, env, now).versions[service] == spec.version
  {
    var r := WorkingRecord(spec, status, now).value;
    assert r.to == spec.version;
    hide ReconcileUpgrade, WorkingRecord, EnabledServices, OrderIndex, UpgradedThrough, Moves;
    StageVersions(spec, status, objects, env, now);
    UpgradeStageCases(spec, status, objects, env, now);
    var u := ReconcileUpgrade(spec, status, objects, env, now).status.upgrade;
    if u.Some? && u.value.phase != r.phase { MovingKeepsUpgraded(spec, status, objects, env, r, u.value.phase); }
  }

  lemma MovingKeepsUpgraded(spec: Spec, status: Status, objects: Objects, env: Env, up: Upgrade, next: UpgradePhase)
    requires Moves(spec, status, objects, env, up, next)
    ensures UpgradedThrough(up.phase) <= UpgradedThrough(next)
  {
    hide ServiceRolledOut;
  }

  lemma RollingIsUpgraded(phase: UpgradePhase)
    requires RollingService(phase).Some?
    ensures OrderIndex(RollingService(phase).value) <= UpgradedThrough(phase)
  {
  }

  /** A template an immovable service does not have is one no undisturbed step gives it. */
  lemma ImmovableStep(matrix: Matrix, w: World, step: Step, service: Service)
    requires Undisturbed(w, step) && Immovable(w, service)
    ensures Immovable(Next(matrix, w, step), service)
  {
    hide Next, PassAt, WorkingRecord, Enabled, Harmless, GeneratedFor, Templated, ServiceRolledOut, Ahead;
    var next := Next(matrix, w, step);
    PhaseStep(matrix, w, step);
    TemplateStep(matrix, w, step, service);
    if !SameTemplate(w.objects.deployments, next.objects.deployments, service) {
      HarmfulIsNeverTemplated(w.spec, next.objects.deployments, service, PassAt(matrix, w, step.env).versions.value[service]);
    } else {
      SameTemplateSameTarget(w.spec, w.objects.deployments, next.objects.deployments, service);
    }
    var p := CurrentPhase(w).value;
    if CurrentPhase(next) != Some(p) {
      if RollingService(p) == Some(service) {
        RolledOutIsTemplated(w.spec, w.objects, step.env, service);
        assert false;
      }
      AheadStays(w.spec, p, service);
    }
  }

  /** Nothing comes to block a clear upgrade. */
  lemma ClearStep(matrix: Matrix, w: World, step: Step)
    requires Undisturbed(w, step) && Clear(w)
    ensures Clear(Next(matrix, w, step))
  {
    hide Next, PassAt, WorkingRecord, Enabled, Harmless, GeneratedFor, Templated, ServiceRolledOut, Assigns, Ahead, Blocked;
    var next := Next(matrix, w, step);
    PhaseStep(matrix, w, step);
    var p, q := CurrentPhase(w), CurrentPhase(next);
    if q.Some? {
      forall s | Ahead(w.spec, q.value, s)
        ensures if Enabled(w.spec, s) then Harmless(w.spec, s, w.spec.version)
                else TemplatedAt(w.spec, next.objects.deployments, s, w.spec.version)
      {
        if q != p { AheadShrinks(w.spec, p.value, s); }
        TemplateStep(matrix, w, step, s);
        if !Enabled(w.spec, s) { SameTemplateSameTarget(w.spec, w.objects.deployments, next.objects.deployments, s); }
      }
    }
  }

  /** While the phase stays, whatever fails and whether or not the status is written, a primed service stays primed. */
  lemma PrimedStep(matrix: Matrix, w: World, step: Step)
    requires Undisturbed(w, step) && Clear(w) && Primed(w)
    requires CurrentPhase(Next(matrix, w, step)) == CurrentPhase(w)
    ensures Primed(Next(matrix, w, step))
  {
    hide Next, PassAt, WorkingRecord, Enabled, Harmless, GeneratedFor, Templated, Assigns, CurrentPhase, OrderIndex, UpgradedThrough;
    var next := Next(matrix, w, step);
    var p := CurrentPhase(w);
    PhaseStep(matrix, w, step);
    if p.Some? && RollingService(p.value).Some? {
      var s := RollingService(p.value).value;
      TemplateStep(matrix, w, step, s);
      if !SameTemplate(w.objects.deployments, next.objects.deployments, s) {
        RollingIsUpgraded(p.value);
        RollingIsAssigned(matrix, w, step.env, s);
        HarmlessIsTemplated(w.spec, next.objects.deployments, s);
      } else {
        SameTemplateSameTarget(w.spec, w.objects.deployments, next.objects.deployments, s);
      }
    }
  }

  // ----- healthy passes -----

  /** A healthy pass moves on unless blocked, and applies every enabled service. */
  lemma HealthyMoves(matrix: Matrix, w: World, env: Env)
    requires Healthy(matrix, w, env) && CurrentPhase(w).Some?
    ensures var p := CurrentPhase(w).value;
            CurrentPhase(Next(matrix, w, ReconcileStep(env)))
            == if Blocked(w.spec, p, w.objects, env) then Some(p)
               else if p == Complete then None else Some(Successor(w.spec, p))
  {
    var m := Mid(matrix, w, env);
    var next := Next(matrix, w, ReconcileStep(env));
    hide Mid, Next, Commits, ApplyServices, StoreHealthy, UpgradeServiceVersions, ReconcileUpgrade, ServiceRolledOut, EnabledServices;
    HealthyPass(matrix, w, env);
    MidKeeps(matrix, w, env);
    NextFrame(matrix, w, env);
    WorkingRecordDepends(w.spec, w.status, m, w.now);
    UnhinderedStage(w.spec, m, w.objects, env, w.now);
  }

  /** The upgrade stage when both persistence conditions are true. */
  lemma UnhinderedStage(spec: Spec, status: Status, objects: Objects, env: Env, now: nat)
    requires status.conditions.reachable && status.conditions.schemaReady
    ensures var r := WorkingRecord(spec, status, now);
            var u := ReconcileUpgrade(spec, status, objects, env, now);
            && (r.None? ==> u.status.upgrade.None? && u.status.version == status.version)
            && (r.Some? && r.value.phase == Complete ==> u.status.upgrade.None? && u.status.version == spec.version)
            && (r.Some? && r.value.phase != Complete ==>
                  && u.status.version == status.version
                  && u.status.upgrade.Some? && SameRecord(u.status.upgrade.value, r.value)
                  && u.status.upgrade.value.phase
                     == (if Blocked(spec, r.value.phase, objects, env) then r.value.phase else Successor(spec, r.value.phase)))
  {
    hide ServiceRolledOut, UpgradeServiceVersions, UniformVersions;
  }

  lemma NextFrame(matrix: Matrix, w: World, env: Env)
    ensures Next(matrix, w, ReconcileStep(env)).spec == w.spec
  {
    hide PassAt;
  }

  /** Every enabled service leaves a healthy pass with the template generated for the version it was assigned. */
  lemma HealthyApplies(matrix: Matrix, w: World, env: Env, service: Service)
    requires Healthy(matrix, w, env) && Enabled(w.spec, service)
    ensures Assigns(matrix, w, env) && service in PassAt(matrix, w, env).versions.value
    ensures GeneratedFor(w.spec, Next(matrix, w, ReconcileStep(env)).objects.deployments, service,
                         PassAt(matrix, w, env).versions.value[service])
  {
    hide PassAt, Mid, Next, Commits, ApplyServices, StoreHealthy, ReconcileUpgrade, Assigns, EnabledServices, GeneratedFor,
         ReconcilePersistence, ReconcileMTLS, ReconcileServices, ComputeReadyAndPhase;
    HealthyPass(matrix, w, env);
    HealthyAssigns(matrix, w, env);
    AssigningPass(matrix, w, env);
    EnabledListed(w.spec, service);
    var u := ReconcileUpgrade(w.spec, Mid(matrix, w, env), w.objects, env, w.now);
    StageCovers(w.spec, Mid(matrix, w, env), w.objects, env, w.now, service);
    ServicesDistinct(w.spec);
    AppliedAt(w.spec, w.objects.deployments, u.versions, EnabledServices(w.spec), service);
    AppliedIsGenerated(w.spec, w.objects.deployments, Next(matrix, w, ReconcileStep(env)).objects.deployments, service, u.versions[service]);
  }

  /** A healthy reconcile that leaves a clear state leaves it primed. */
  lemma LeftPrimed(matrix: Matrix, w: World, env: Env)
    requires Healthy(matrix, w, env) && Clear(Next(matrix, w, ReconcileStep(env)))
    ensures Primed(Next(matrix, w, ReconcileStep(env)))
  {
    hide Next, Healthy, PassAt, WorkingRecord, Enabled, Harmless, GeneratedFor, Templated, Assigns, CurrentPhase, OrderIndex,
         UpgradedThrough, ServiceRolledOut, Clear;
    var next := Next(matrix, w, ReconcileStep(env));
    NextFrame(matrix, w, env);
    var q := CurrentPhase(next);
    if q.Some? && RollingService(q.value).Some? {
      var s := RollingService(q.value).value;
      ClearAt(next, s);
      if Enabled(w.spec, s) {
        HealthyApplies(matrix, w, env, s);
        RollingAfterPass(matrix, w, env, s);
        HarmlessIsTemplated(w.spec, next.objects.deployments, s);
      }
    }
  }

  lemma HealthyPrimes(matrix: Matrix, w: World, env: Env)
    requires Healthy(matrix, w, env) && Clear(w)
    ensures Primed(Next(matrix, w, ReconcileStep(env)))
  {
    hide Next, Healthy, Clear, Primed;
    ClearStep(matrix, w, ReconcileStep(env));
    LeftPrimed(matrix, w, env);
  }

  lemma ClearAt(w: World, service: Service)
    requires Clear(w) && CurrentPhase(w).Some? && RollingService(CurrentPhase(w).value) == Some(service)
    ensures if Enabled(w.spec, service) then Harmless(w.spec, service, w.spec.version)
            else TemplatedAt(w.spec, w.objects.deployments, service, w.spec.version)
  {
    hide CurrentPhase, Enabled, Harmless, TemplatedAt;
    assert Ahead(w.spec, CurrentPhase(w).value, service);
  }

  /** A healthy pass assigns the target to the service it leaves its record rolling. */
  lemma RollingAfterPass(matrix: Matrix, w: World, env: Env, service: Service)
    requires Healthy(matrix, w, env) && Assigns(matrix, w, env) && service in PassAt(matrix, w, env).versions.value
    requires var q := CurrentPhase(Next(matrix, w, ReconcileStep(env)));
             q.Some? && RollingService(q.value) == Some(service)
    ensures PassAt(matrix, w, env).versions.value[service] == w.spec.version
  {
    hide PassAt, Mid, Commits, ReconcileUpgrade, Assigns, ApplyServices, StoreHealthy, EnabledServices, OrderIndex, UpgradedThrough, Next;
    var q := CurrentPhase(Next(matrix, w, ReconcileStep(env))).value;
    HealthyPass(matrix, w, env);
    NextFrame(matrix, w, env);
    CommittedAssignment(matrix, w, env);
    RollingIsUpgraded(q);
  }

  /** With the service primed and caught up, a healthy pass lowers the rank by exactly one. */
  lemma SettledAdvances(matrix: Matrix, w: World, env: Env)
    requires Healthy(matrix, w, env) && Primed(w) && Settled(w) && Remaining(w) > 0
    ensures Remaining(Next(matrix, w, ReconcileStep(env))) == Remaining(w) - 1
  {
    RemainingIsRank(w);
    SettledIsUnblocked(w, env) by { assert !env.deploymentGetFails; }
    hide Next, Healthy, WorkingRecord, Blocked, Primed, Settled, CurrentPhase, Remaining, Rank;
    HealthyMoves(matrix, w, env);
    NextFrame(matrix, w, env);
    RemainingIsRank(Next(matrix, w, ReconcileStep(env)));
    var p := CurrentPhase(w).value;
    if p == Complete { RankOfComplete(w.spec); } else { RankOfSuccessor(w.spec, p); }
  }

  lemma RankOfComplete(spec: Spec)
    ensures Rank(spec, Complete) == 1
  {
  }

  lemma SettledIsUnblocked(w: World, env: Env)
    requires Primed(w) && Settled(w) && !env.deploymentGetFails && CurrentPhase(w).Some?
    ensures !Blocked(w.spec, CurrentPhase(w).value, w.objects, env)
  {
    hide CurrentPhase, ImageOf, ServerImage;
  }

  // ----- segments of a run -----

  ghost predicate IsSegment(matrix: Matrix, ws: seq<World>, steps: seq<Step>) {
    && |ws| == |steps| + 1
    && forall i :: 0 <= i < |steps| ==> ws[i + 1] == Next(matrix, ws[i], steps[i])
  }

  ghost predicate AllUndisturbed(ws: seq<World>, steps: seq<Step>)
    requires |ws| > |steps|
  {
    forall i :: 0 <= i < |steps| ==> Undisturbed(ws[i], steps[i])
  }

  /** The reconcile is healthy and finds the service being rolled, if any, caught up. */
  ghost predicate Productive(matrix: Matrix, w: World, step: Step) {
    step.ReconcileStep? && Healthy(matrix, w, step.env) && Settled(w)
  }

  ghost function ProductivePasses(matrix: Matrix, ws: seq<World>, steps: seq<Step>): nat
    requires |ws| > |steps|
  {
    if steps == [] then 0
    else (if Productive(matrix, ws[0], steps[0]) then 1 else 0) + ProductivePasses(matrix, ws[1..], steps[1..])
  }

  lemma SegmentTail(matrix: Matrix, ws: seq<World>, steps: seq<Step>)
    requires IsSegment(matrix, ws, steps) && AllUndisturbed(ws, steps) && steps != []
    ensures IsSegment(matrix, ws[1..], steps[1..]) && AllUndisturbed(ws[1..], steps[1..])
    ensures ws[1] == Next(matrix, ws[0], steps[0]) && Undisturbed(ws[0], steps[0])
    ensures ws[1..][0] == ws[1] && ws[1..][|steps[1..]|] == ws[|steps|]
  {
    hide Next, Undisturbed;
    forall i | 0 <= i < |steps[1..]|
      ensures ws[1..][i + 1] == Next(matrix, ws[1..][i], steps[1..][i]) && Undisturbed(ws[1..][i], steps[1..][i])
    {
      assert ws[i + 2] == Next(matrix, ws[i + 1], steps[i + 1]) && Undisturbed(ws[i + 1], steps[i + 1]);
    }
  }

  /** The rank, and one more while the service being rolled still lacks its template. */
  function Debt(w: World): nat {
    Remaining(w) + if Primed(w) then 0 else 1
  }

  /** A step never adds to the debt, and a productive one pays off at least one. */
  lemma DebtStep(matrix: Matrix, w: World, step: Step)
    requires Undisturbed(w, step) && Clear(w)
    ensures Debt(Next(matrix, w, step)) <= Debt(w)
    ensures Productive(matrix, w, step) && Debt(w) > 0 ==> Debt(Next(matrix, w, step)) < Debt(w)
  {
    hide Next, Healthy, Primed, Settled, Remaining, Clear, CurrentPhase;
    var next := Next(matrix, w, step);
    RankNeverGrows(matrix, w, step);
    if Primed(w) && CurrentPhase(next) == CurrentPhase(w) { PrimedStep(matrix, w, step); }
    if Productive(matrix, w, step) && Debt(w) > 0 {
      HealthyPrimes(matrix, w, step.env);
      if Primed(w) { SettledAdvances(matrix, w, step.env); }
    }
  }

  lemma {:induction false} DebtIsPaid(matrix: Matrix, ws: seq<World>, steps: seq<Step>)
    requires IsSegment(matrix, ws, steps) && AllUndisturbed(ws, steps) && Clear(ws[0])
    ensures Debt(ws[|steps|]) == 0 || Debt(ws[|steps|]) + ProductivePasses(matrix, ws, steps) <= Debt(ws[0])
    ensures Debt(ws[|steps|]) <= Debt(ws[0])
    decreases |steps|
  {
    hide Next, Debt, Clear, Productive, Undisturbed;
    assert |ws| == |steps| + 1;
    if steps != [] {
      SegmentTail(matrix, ws, steps);
      DebtStep(matrix, ws[0], steps[0]);
      ClearStep(matrix, ws[0], steps[0]);
      hide IsSegment, AllUndisturbed;
      DebtIsPaid(matrix, ws[1..], steps[1..]);
    }
  }

  /** How many productive passes an upgrade takes at most. */
  function Enough(spec: Spec): nat {
    if spec.internalFrontend then 10 else 9
  }

  /**
   Every clear upgrade completes.  From any state, let the spec stay and only the operator
   change Deployment templates.  Once one healthy reconcile has applied the services, ten
   healthy ones that find the rolling service caught up (nine without internal-frontend)
   leave no upgrade to do: the running version is the spec's.  Between them any number of
   reconciles may fail anywhere, find stores out of reach, or lose their status write.
   */
  lemma UpgradeCompletes(matrix: Matrix, ws: seq<World>, steps: seq<Step>)
    requires IsSegment(matrix, ws, steps) && AllUndisturbed(ws, steps)
    requires steps != [] && steps[0].ReconcileStep? && Healthy(matrix, ws[0], steps[0].env)
    requires Clear(ws[0]) || Clear(ws[1])
    requires ProductivePasses(matrix, ws[1..], steps[1..]) >= Enough(ws[0].spec)
    ensures Remaining(ws[|steps|]) == 0
    ensures ws[|steps|].status.version in {"", ws[|steps|].spec.version}
  {
    hide Next, Healthy, Primed, Clear, Undisturbed, ProductivePasses, Remaining, CurrentPhase;
    SegmentTail(matrix, ws, steps);
    NextFrame(matrix, ws[0], steps[0].env);
    if Clear(ws[0]) { ClearStep(matrix, ws[0], steps[0]); }
    hide IsSegment, AllUndisturbed;
    LeftPrimed(matrix, ws[0], steps[0].env);
    RemainingIsBounded(ws[1]);
    DebtIsPaid(matrix, ws[1..], steps[1..]);
    RemainingIsRank(ws[|steps|]);
  }

  // ----- exactly when it does not -----

  /** After a healthy pass, a state is clear or doomed, and not both. */
  lemma ClearOrDoomed(matrix: Matrix, w: World, env: Env)
    requires Healthy(matrix, w, env)
    ensures var next := Next(matrix, w, ReconcileStep(env));
            Doomed(next) <==> !Clear(next)
  {
    hide Next, Healthy, PassAt, Enabled, Harmless, GeneratedFor, Templated, CurrentPhase, Ahead;
    var next := Next(matrix, w, ReconcileStep(env));
    NextFrame(matrix, w, env);
    forall s ensures Enabled(w.spec, s) && !Harmless(w.spec, s, w.spec.version) ==>
                       !TemplatedAt(w.spec, next.objects.deployments, s, w.spec.version)
    {
      if Enabled(w.spec, s) && !Harmless(w.spec, s, w.spec.version) {
        HealthyApplies(matrix, w, env, s);
        HarmfulIsNeverTemplated(w.spec, next.objects.deployments, s, PassAt(matrix, w, env).versions.value[s]);
      }
    }
    if !Clear(next) {
      var s :| Ahead(w.spec, CurrentPhase(next).value, s)
               && !(if Enabled(w.spec, s) then Harmless(w.spec, s, w.spec.version)
                    else TemplatedAt(w.spec, next.objects.deployments, s, w.spec.version));
      assert Immovable(next, s);
    }
  }

  /**
   A doomed upgrade never completes: in every undisturbed segment, whatever its reconciles
   find or fail at, the immovable service stays immovable, so its phase is never left.
   */
  lemma {:induction false} DoomedForever(matrix: Matrix, ws: seq<World>, steps: seq<Step>, service: Service)
    requires IsSegment(matrix, ws, steps) && AllUndisturbed(ws, steps) && Immovable(ws[0], service)
    ensures Immovable(ws[|steps|], service)
    ensures Remaining(ws[|steps|]) > 0
    decreases |steps|
  {
    hide Next, Immovable, Undisturbed;
    assert |ws| == |steps| + 1;
    if steps != [] {
      SegmentTail(matrix, ws, steps);
      ImmovableStep(matrix, ws[0], steps[0], service);
      hide IsSegment, AllUndisturbed;
      DoomedForever(matrix, ws[1..], steps[1..], service);
    } else {
      ImmovableRemains(ws[0], service);
    }
  }

  lemma ImmovableRemains(w: World, service: Service)
    requires Immovable(w, service)
    ensures Remaining(w) > 0
  {
    RemainingIsRank(w);
  }

  /**
   The upgrade completes exactly when the first healthy pass leaves it undoomed: no service
   ahead is both off the target and out of the operator's hands, by a pod template that pins
   another label or image or by being disabled while its phase waits.
   */
  lemma CompletesExactlyUnlessDoomed(matrix: Matrix, ws: seq<World>, steps: seq<Step>)
    requires IsSegment(matrix, ws, steps) && AllUndisturbed(ws, steps)
    requires steps != [] && steps[0].ReconcileStep? && Healthy(matrix, ws[0], steps[0].env)
    requires ProductivePasses(matrix, ws[1..], steps[1..]) >= Enough(ws[0].spec)
    ensures ws[|steps|].status.version in {"", ws[|steps|].spec.version} <==> !Doomed(ws[1])
  {
    hide Next, Healthy, Primed, Clear, Undisturbed, ProductivePasses, Remaining, CurrentPhase, Immovable;
    SegmentTail(matrix, ws, steps);
    hide IsSegment, AllUndisturbed;
    ClearOrDoomed(matrix, ws[0], steps[0].env);
    if Doomed(ws[1]) {
      var s :| Immovable(ws[1], s);
      DoomedForever(matrix, ws[1..], steps[1..], s);
      RemainingIsRank(ws[|steps|]);
    } else {
      UpgradeCompletes(matrix, ws, steps);
    }
  }

  /**
   For internal-frontend disabled while its phase waits: doomed exactly when its Deployment is
   missing or not templated at the target, or the worker, which comes after it, is held back.
   */
  lemma DisabledInternalFrontendExactly(w: World)
    requires CurrentPhase(w) == Some(RollingInternalFrontend) && !w.spec.internalFrontend
    ensures Doomed(w) <==>
              || !TemplatedAt(w.spec, w.objects.deployments, InternalFrontend, w.spec.version)
              || (&& !Harmless(w.spec, Worker, w.spec.version)
                  && !TemplatedAt(w.spec, w.objects.deployments, Worker, w.spec.version))
  {
    hide CurrentPhase, TemplatedAt, Harmless;
    if Doomed(w) {
      var s :| Immovable(w, s);
      assert s in {InternalFrontend, Worker};
    } else {
      assert !Immovable(w, InternalFrontend) && !Immovable(w, Worker);
    }
  }

  /** A healthy pass under a pod template that pins an enabled service ahead to another label or image dooms the upgrade. */
  lemma HarmfulOverridesDoom(matrix: Matrix, w: World, env: Env, service: Service)
    requires Healthy(matrix, w, env)
    requires Enabled(w.spec, service) && !Harmless(w.spec, service, w.spec.version)
    requires var q := CurrentPhase(Next(matrix, w, ReconcileStep(env)));
             q.Some? && Ahead(w.spec, q.value, service)
    ensures Immovable(Next(matrix, w, ReconcileStep(env)), service)
  {
    hide Next, Healthy, PassAt, Enabled, Harmless, GeneratedFor, Templated, CurrentPhase, Ahead;
    NextFrame(matrix, w, env);
    HealthyApplies(matrix, w, env, service);
    HarmfulIsNeverTemplated(w.spec, Next(matrix, w, ReconcileStep(env)).objects.deployments, service,
                            PassAt(matrix, w, env).versions.value[service]);
  }
}
