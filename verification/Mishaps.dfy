/**
 Runs, from a new resource, in which an upgrade goes wrong in the ways the other modules
 characterise: it is doomed, or a service is handed the target and then the source again.
 */
module Mishaps {
  import opened Wrappers
  import opened Versions
  import opened ClusterTypes
  import opened Persistence
  import opened Upgrades
  import opened Controller
  import opened PassFacts
  import opened UpgradeRuns
  import opened DeploymentFacts
  import opened UpgradeProgress
  import opened AssignmentRuns
  import opened Lifecycles

  /** Install, edit, a pass, and `n` rounds. */
  function StartedSteps(matrix: Matrix, w: World, first: Env, second: Env, spec: Spec, n: nat): seq<Step> {
    var start := EditedSteps(matrix, w, first, spec);
    start + UpgradeSteps(matrix, Outcome(matrix, w, start), second, n)
  }

  /** A healthy pass over a new record takes it to the preflight checks. */
  lemma FirstPassMoves(matrix: Matrix, w: World, env: Env)
    requires Healthy(matrix, w, env) && CurrentPhase(w) == Some(Pending)
    ensures CurrentPhase(Next(matrix, w, ReconcileStep(env))) == Some(PreflightChecks)
    ensures Remaining(Next(matrix, w, ReconcileStep(env))) == Enough(w.spec) - 1
  {
    hide Next, Healthy, CurrentPhase, Remaining;
    HealthyMoves(matrix, w, env);
    NextFrame(matrix, w, env);
    RemainingIsRank(Next(matrix, w, ReconcileStep(env)));
  }

  /** After `n` rounds the upgrade to a spec without harmful pod templates is `n + 1` phases on. */
  lemma StartedUpgrade(matrix: Matrix, w: World, first: Env, second: Env, spec: Spec, n: nat)
    requires Promising(matrix, w, first, second, spec) && AllHarmless(spec) && n < Enough(spec) - 1
    ensures var steps := StartedSteps(matrix, w, first, second, spec, n);
            var end := Outcome(matrix, w, steps);
            && IsRun(matrix, Unfold(matrix, w, steps), steps)
            && Underway(matrix, end, second) && end.spec == spec && Remaining(end) == Enough(spec) - 1 - n
  {
    hide Next, Promising, EditedSteps, UpgradeSteps, Unfold, AllHarmless, Healthy, Clear, Primed, RecordConsistent, CurrentPhase,
         Remaining, Outcome;
    var start := EditedSteps(matrix, w, first, spec);
    var edited := Outcome(matrix, w, start);
    var upgrade := UpgradeSteps(matrix, edited, second, n);
    InstalledAndEdited(matrix, w, first, second, spec);
    FirstPassMoves(matrix, edited, second);
    UpgradeAdvances(matrix, edited, second, n);
    PromisedVersions(matrix, w, first, second, spec);
    OutcomeOfTwo(matrix, w, start, upgrade);
    UnfoldIsRun(matrix, w, start + upgrade);
  }

  /** One more step of a run. */
  lemma RunExtends(matrix: Matrix, w: World, steps: seq<Step>, step: Step)
    requires w.status == NEW_STATUS
    ensures IsRun(matrix, Unfold(matrix, w, steps + [step]), steps + [step])
    ensures Outcome(matrix, w, steps + [step]) == Next(matrix, Outcome(matrix, w, steps), step)
  {
    hide Next, Unfold, Outcome;
    UnfoldIsRun(matrix, w, steps + [step]);
    OutcomeOfTwo(matrix, w, steps, [step]);
    OneThen(matrix, Outcome(matrix, w, steps), step, []);
    assert [step] + [] == [step];
    OutcomeOfNone(matrix, Next(matrix, Outcome(matrix, w, steps), step));
  }

  // ----- internal-frontend disabled while its phase waits -----

  lemma RankOfInternalFrontend(w: World)
    requires w.spec.internalFrontend && Remaining(w) == 4
    ensures CurrentPhase(w) == Some(RollingInternalFrontend)
  {
  }

  /** Someone deletes the service's Deployment. */
  function Deletes(w: World, service: Service): Step {
    Environment(w.objects.(deployments := w.objects.deployments - {service}), w.databases)
  }

  lemma DeletedFrame(matrix: Matrix, w: World, service: Service)
    ensures Next(matrix, w, Deletes(w, service))
         == w.(now := w.now + 1, objects := w.objects.(deployments := w.objects.deployments - {service}))
  {
    hide PassAt;
  }

  lemma DisablingKeepsRecord(w: World, later: World)
    requires CurrentPhase(w) == Some(RollingInternalFrontend)
    requires later.status == w.status && later.spec == w.spec.(internalFrontend := false)
    ensures CurrentPhase(later) == Some(RollingInternalFrontend)
  {
  }

  lemma DisablingKeepsImages(spec: Spec, d: Deployment)
    ensures Templated(spec.(internalFrontend := false), d, spec.version) <==> Templated(spec, d, spec.version)
    ensures forall s :: Harmless(spec.(internalFrontend := false), s, spec.version) <==> Harmless(spec, s, spec.version)
  {
    hide ImageOf;
    assert ServerImage(spec.(internalFrontend := false), spec.version) == ServerImage(spec, spec.version);
  }

  /**
   From a new resource a run reaches the internal-frontend phase.  Disabling the service there
   leaves the upgrade clear, because the pass that entered the phase had templated its
   Deployment at the target.  If that Deployment is deleted first, disabling dooms the upgrade.
   */
  lemma DisabledInternalFrontendRuns(matrix: Matrix, w: World, first: Env, second: Env, spec: Spec)
    requires Promising(matrix, w, first, second, spec) && AllHarmless(spec) && spec.internalFrontend
    ensures var waiting := StartedSteps(matrix, w, first, second, spec, 5);
            var disable := EditSpec(spec.(internalFrontend := false));
            && IsRun(matrix, Unfold(matrix, w, waiting + [disable]), waiting + [disable])
            && CurrentPhase(Outcome(matrix, w, waiting + [disable])) == Some(RollingInternalFrontend)
            && Clear(Outcome(matrix, w, waiting + [disable]))
    ensures var waiting := StartedSteps(matrix, w, first, second, spec, 5);
            var steps := waiting + [Deletes(Outcome(matrix, w, waiting), InternalFrontend)]
                         + [EditSpec(spec.(internalFrontend := false))];
            && IsRun(matrix, Unfold(matrix, w, steps), steps)
            && Immovable(Outcome(matrix, w, steps), InternalFrontend)
  {
    hide Next, Promising, StartedSteps, Unfold, Outcome, AllHarmless, Healthy, Clear, Primed, CurrentPhase, Remaining, Immovable;
    var waiting := StartedSteps(matrix, w, first, second, spec, 5);
    var end := Outcome(matrix, w, waiting);
    var delete, disable := Deletes(end, InternalFrontend), EditSpec(spec.(internalFrontend := false));
    PromisedVersions(matrix, w, first, second, spec);
    StartedUpgrade(matrix, w, first, second, spec, 5);
    RankOfInternalFrontend(end);
    RunExtends(matrix, w, waiting, disable);
    RunExtends(matrix, w, waiting, delete);
    RunExtends(matrix, w, waiting + [delete], disable);
    EditFrame(matrix, end, spec.(internalFrontend := false));
    DeletedFrame(matrix, end, InternalFrontend);
    EditFrame(matrix, Next(matrix, end, delete), spec.(internalFrontend := false));
    DisabledIsClear(end, Next(matrix, end, disable));
    DeletedIsImmovable(end, Next(matrix, Next(matrix, end, delete), disable));
  }

  lemma DisabledIsClear(w: World, later: World)
    requires CurrentPhase(w) == Some(RollingInternalFrontend) && Primed(w) && Clear(w)
    requires later.status == w.status && later.objects == w.objects && later.spec == w.spec.(internalFrontend := false)
    ensures CurrentPhase(later) == Some(RollingInternalFrontend) && Clear(later)
  {
    hide CurrentPhase, Templated, Harmless;
    DisablingKeepsRecord(w, later);
    DisablingKeepsImages(w.spec, w.objects.deployments[InternalFrontend]);
    assert Ahead(w.spec, RollingInternalFrontend, Worker);
  }

  lemma DeletedIsImmovable(w: World, later: World)
    requires CurrentPhase(w) == Some(RollingInternalFrontend)
    requires later.status == w.status && later.spec == w.spec.(internalFrontend := false)
    requires InternalFrontend !in later.objects.deployments
    ensures Immovable(later, InternalFrontend)
  {
    hide CurrentPhase, Templated;
    DisablingKeepsRecord(w, later);
  }

  // ----- a pod template that pins another label or image -----

  /** An edit to a new version under a pod template that pins an enabled service dooms the upgrade with its first pass. */
  lemma HarmfulOverridesRun(matrix: Matrix, w: World, first: Env, second: Env, spec: Spec, service: Service)
    requires Promising(matrix, w, first, second, spec)
    requires Enabled(spec, service) && !Harmless(spec, service, spec.version)
    ensures var steps := EditedSteps(matrix, w, first, spec) + [ReconcileStep(second)];
            && IsRun(matrix, Unfold(matrix, w, steps), steps)
            && Immovable(Outcome(matrix, w, steps), service)
  {
    hide Next, Promising, EditedSteps, Unfold, Outcome, Healthy, Clear, CurrentPhase, Remaining, Immovable, Harmless, AllHarmless;
    var start := EditedSteps(matrix, w, first, spec);
    var edited := Outcome(matrix, w, start);
    PromisedVersions(matrix, w, first, second, spec);
    InstalledAndEdited(matrix, w, first, second, spec);
    RunExtends(matrix, w, start, ReconcileStep(second));
    FirstPassMoves(matrix, edited, second);
    assert Ahead(spec, PreflightChecks, service);
    HarmfulOverridesDoom(matrix, edited, second, service);
  }

  // ----- ready while upgrading -----

  lemma RankDropsAtMostOne(matrix: Matrix, w: World, step: Step)
    requires !step.EditSpec?
    ensures Remaining(Next(matrix, w, step)) >= Remaining(w) - 1
  {
    hide Next, Blocked, WorkingRecord, Remaining, CurrentPhase, Rank;
    PhaseStep(matrix, w, step);
    RemainingIsRank(w);
    RemainingIsRank(Next(matrix, w, step));
    var p := CurrentPhase(w);
    if p.Some? { if p.value == Complete { RankOfComplete(w.spec); } else { RankOfSuccessor(w.spec, p.value); } }
  }

  /**
   From a new resource: a run whose last pass, mid-upgrade, finds every service available and
   sets the Ready condition true, while the phase it sets is Upgrading and not Ready.
   */
  lemma ReadyWhileUpgrading(matrix: Matrix, w: World, first: Env, second: Env, spec: Spec)
    requires Promising(matrix, w, first, second, spec) && AllHarmless(spec)
    ensures var started := StartedSteps(matrix, w, first, second, spec, 2);
            var applied := Outcome(matrix, w, started + [ReconcileStep(second)]);
            var steps := started + [ReconcileStep(second)] + [CatchUp(applied)] + [ReconcileStep(second)];
            var end := Outcome(matrix, w, steps).status;
            && IsRun(matrix, Unfold(matrix, w, steps), steps)
            && end.conditions.ready && end.phase == Upgrading
  {
    hide Next, StartedSteps, Unfold, Outcome, AllHarmless, Healthy, Clear, Primed, CurrentPhase, Remaining, CatchUp, IsRun, Serving,
         Promising;
    var started := StartedSteps(matrix, w, first, second, spec, 2);
    var r := ReconcileStep(second);
    PromisedVersions(matrix, w, first, second, spec);
    PromisedScale(matrix, w, first, second, spec);
    StartedUpgrade(matrix, w, first, second, spec, 2);
    var x := Outcome(matrix, w, started);
    RunExtends(matrix, w, started, r);
    var applied := Next(matrix, x, r);
    RunExtends(matrix, w, started + [r], CatchUp(applied));
    var caught := Next(matrix, applied, CatchUp(applied));
    RunExtends(matrix, w, started + [r] + [CatchUp(applied)], r);
    HealthLasts(matrix, x, second);
    CatchUpKeepsHealth(matrix, applied, second);
    CatchUpFrame(matrix, applied);
    CaughtUpServes(matrix, x, second);
    ServingIsReady(matrix, caught, second);
    RankDropsAtMostOne(matrix, x, r);
    RankDropsAtMostOne(matrix, applied, CatchUp(applied));
    RankDropsAtMostOne(matrix, caught, r);
    HealthyUpgradeIsRecorded(matrix, caught, second);
  }

  lemma PromisedScale(matrix: Matrix, w: World, first: Env, second: Env, spec: Spec)
    requires Promising(matrix, w, first, second, spec)
    ensures Scaled(spec) && !spec.mtls && w.spec.workloadIdentity == spec.workloadIdentity
    ensures spec.defaultStore == w.spec.defaultStore && spec.visibilityStore == w.spec.visibilityStore
  {
    hide Healthy;
  }

  /** A healthy pass that leaves an upgrade to do leaves its record in the status. */
  lemma HealthyUpgradeIsRecorded(matrix: Matrix, w: World, env: Env)
    requires Healthy(matrix, w, env) && Remaining(Next(matrix, w, ReconcileStep(env))) > 0
    ensures Next(matrix, w, ReconcileStep(env)).status.upgrade.Some?
  {
    hide Next, Healthy, Mid, Remaining, Blocked, ReconcileUpgrade, Commits, ApplyServices, EnabledServices;
    var next := Next(matrix, w, ReconcileStep(env));
    HealthyPass(matrix, w, env);
    MidKeeps(matrix, w, env);
    RemainingIsRank(w);
    RemainingIsRank(next);
    NextFrame(matrix, w, env);
    PhaseStep(matrix, w, ReconcileStep(env));
    WorkingRecordDepends(w.spec, w.status, Mid(matrix, w, env), w.now);
    UnhinderedStage(w.spec, Mid(matrix, w, env), w.objects, env, w.now);
  }

  // ----- a lost status write -----

  /** Someone touches the service's Deployment, and the Deployment controller has not caught up yet. */
  function Touches(w: World, service: Service): Step
    requires service in w.objects.deployments
  {
    var d := w.objects.deployments[service];
    Environment(w.objects.(deployments := w.objects.deployments[service := d.(generation := d.observedGeneration + 1)]), w.databases)
  }

  /**
   Two passes of one record, for any spec and status at the frontend phase: the first finds
   the frontend rolled out and hands history the target, but its status is not written; the
   second no longer finds it rolled out and hands history the source.
   */
  lemma UnwrittenAdvanceIsTakenBack(matrix: Matrix, w: World, lost: Env, later: World, next: Env)
    requires RecordConsistent(w) && w.status.upgrade.Some? && WorkingRecord(w.spec, w.status, w.now) == w.status.upgrade
    requires w.status.upgrade.value.phase == RollingFrontend
    requires Assigns(matrix, w, lost) && ServiceRolledOut(w.spec, w.objects, lost, Frontend, w.spec.version)
    requires later.spec == w.spec && later.status == w.status && later.now >= w.now && Assigns(matrix, later, next)
    requires !ServiceRolledOut(w.spec, later.objects, next, Frontend, w.spec.version)
    ensures History in PassAt(matrix, w, lost).versions.value && History in PassAt(matrix, later, next).versions.value
    ensures PassAt(matrix, w, lost).versions.value[History] == w.spec.version
    ensures PassAt(matrix, later, next).versions.value[History] != w.spec.version
  {
    hide PassAt, Mid, WorkingRecord, ServiceRolledOut, PassPhase, Assigns, OrderIndex, UpgradedThrough, Passable, RecordConsistent;
    SameRollingRecord(w, later);
    PassableFrontend(matrix, w, lost);
    PassableFrontend(matrix, later, next);
    AssignedExactly(matrix, w, lost, History);
    AssignedExactly(matrix, later, next, History);
    PassPhaseExactly(matrix, w, lost);
    PassPhaseExactly(matrix, later, next);
    HistoryComesNext();
  }

  lemma SameRollingRecord(w: World, later: World)
    requires RecordConsistent(w) && w.status.upgrade.Some? && WorkingRecord(w.spec, w.status, w.now) == w.status.upgrade
    requires later.spec == w.spec && later.status == w.status && later.now >= w.now
    ensures WorkingRecord(later.spec, later.status, later.now) == w.status.upgrade && RecordConsistent(later)
    ensures w.status.upgrade.value.to == w.spec.version
  {
  }

  lemma PassableFrontend(matrix: Matrix, w: World, env: Env)
    requires w.status.upgrade.Some? && WorkingRecord(w.spec, w.status, w.now) == w.status.upgrade
    requires w.status.upgrade.value.phase == RollingFrontend && w.status.upgrade.value.to == w.spec.version
    ensures Passable(matrix, w, env) <==> ServiceRolledOut(w.spec, w.objects, env, Frontend, w.spec.version)
  {
    hide Mid, WorkingRecord, ServiceRolledOut;
  }

  lemma HistoryComesNext()
    ensures UpgradedThrough(RollingFrontend) < OrderIndex(History) <= UpgradedThrough(RollingHistory)
  {
  }

  lemma RankOfFrontend(w: World)
    requires Remaining(w) == Enough(w.spec) - 3
    ensures CurrentPhase(w) == Some(RollingFrontend)
  {
  }

  /** A pass whose status write conflicts. */
  function Conflicting(env: Env): Env {
    env.(write := Conflict)
  }

  lemma ConflictKeeps(matrix: Matrix, w: World, env: Env)
    requires Healthy(matrix, w, env)
    ensures var next := Next(matrix, w, ReconcileStep(Conflicting(env)));
            && next.status == w.status && next.spec == w.spec && next.now == w.now + 1
            && next.objects.pods == w.objects.pods && InspectorsReady(w.spec, next.objects)
            && next.objects == Next(matrix, w, ReconcileStep(env)).objects
            && Assigns(matrix, w, Conflicting(env)) && PassAt(matrix, w, Conflicting(env)) == PassAt(matrix, w, env)
  {
    var c := Conflicting(env);
    SamePass(matrix, w, env);
    HealthLasts(matrix, w, env);
    HealthyAssigns(matrix, w, env);
    hide PassAt, Healthy, InspectorsReady;
  }

  /** What a pass computes does not depend on whether its write will succeed. */
  lemma SamePass(matrix: Matrix, w: World, env: Env)
    ensures PassAt(matrix, w, Conflicting(env)) == PassAt(matrix, w, env)
  {
    var c := Conflicting(env);
    SamePersistence(matrix, w.spec, w.status, w.objects, env);
    hide ReconcilePersistence, RolledOut, ApplyServices, Rollup, EnabledServices, UpgradeServiceVersions, UniformVersions;
    var t := ReconcileMTLS(w.spec, ReconcilePersistence(matrix, w.spec, w.status, w.objects, env).status,
                           ReconcilePersistence(matrix, w.spec, w.status, w.objects, env).objects, env);
    assert ReconcileUpgrade(w.spec, t.status, t.objects, c, w.now) == ReconcileUpgrade(w.spec, t.status, t.objects, env, w.now);
  }

  lemma SamePersistence(matrix: Matrix, spec: Spec, status: Status, objects: Objects, env: Env)
    ensures ReconcilePersistence(matrix, spec, status, objects, Conflicting(env)) == ReconcilePersistence(matrix, spec, status, objects, env)
  {
    hide InspectOnce, ReconcileStoreSchema, LookupVersion, MinSchemaFor;
    SameProbes(spec, objects, env, TARGETS, map[]);
    var probed := ProbeAll(spec, objects, env, TARGETS, map[]);
    var info := LookupVersion(matrix, spec.version);
    if info.Some? {
      SameSchemas(info.value, spec, SetReachable(status, true), probed.objects, env, TARGETS, probed.cache, false);
    }
  }

  lemma SameProbe(spec: Spec, objects: Objects, env: Env, store: Store, cache: Cache)
    ensures ProbeStore(spec, objects, Conflicting(env), store, cache) == ProbeStore(spec, objects, env, store, cache)
  {
    hide InspectOnce;
  }

  lemma {:induction false} SameProbes(spec: Spec, objects: Objects, env: Env, targets: seq<Store>, cache: Cache)
    ensures ProbeAll(spec, objects, Conflicting(env), targets, cache) == ProbeAll(spec, objects, env, targets, cache)
    decreases |targets|
  {
    hide ProbeStore;
    if targets != [] {
      var p := ProbeStore(spec, objects, env, targets[0], cache);
      SameProbe(spec, objects, env, targets[0], cache);
      SameProbes(spec, p.objects, env, targets[1..], p.cache);
    }
  }

  lemma {:induction false} SameSchemas(info: VersionInfo, spec: Spec, status: Status, objects: Objects, env: Env,
                                       targets: seq<Store>, cache: Cache, migrating: bool)
    ensures SchemaAll(info, spec, status, objects, Conflicting(env), targets, cache, migrating)
         == SchemaAll(info, spec, status, objects, env, targets, cache, migrating)
    decreases |targets|
  {
    hide ReconcileStoreSchema, MinSchemaFor;
    if targets != [] {
      var store := targets[0];
      var r := ReconcileStoreSchema(spec, objects, env.StoreEnvOf(store), store, cache,
                                    MinSchemaFor(info, spec.StoreSpecOf(store).kind, store));
      var recorded := Record(status, store, r.version);
      SameSchemas(info, spec, recorded, r.objects, env, targets[1..], cache, migrating);
      SameSchemas(info, spec, recorded, r.objects, env, targets[1..], cache, true);
    }
  }

  /**
   From a new resource: a run in which history is handed the target by a pass that loses its
   status write, and the source by the next pass of the same record.
   */
  lemma HistoryIsRolledBack(matrix: Matrix, w: World, first: Env, second: Env, spec: Spec)
    requires Promising(matrix, w, first, second, spec) && AllHarmless(spec)
    ensures var started := StartedSteps(matrix, w, first, second, spec, 2);
            var caught := Next(matrix, Outcome(matrix, w, started), CatchUp(Outcome(matrix, w, started)));
            var lost := ReconcileStep(Conflicting(second));
            var after := Next(matrix, caught, lost);
            && Frontend in after.objects.deployments
            && var steps := started + [CatchUp(Outcome(matrix, w, started))] + [lost] + [Touches(after, Frontend)] + [ReconcileStep(second)];
            var touched := Next(matrix, after, Touches(after, Frontend));
            && IsRun(matrix, Unfold(matrix, w, steps), steps)
            && Assigns(matrix, caught, lost.env) && Assigns(matrix, touched, second)
            && History in PassAt(matrix, caught, lost.env).versions.value && History in PassAt(matrix, touched, second).versions.value
            && PassAt(matrix, caught, lost.env).versions.value[History] == spec.version
            && PassAt(matrix, touched, second).versions.value[History] != spec.version
  {
    hide Next, Promising, StartedSteps, Unfold, Outcome, AllHarmless, Healthy, Clear, Primed, Settled, CurrentPhase, Remaining,
         CatchUp, Touches, Conflicting, PassAt, IsRun, Assigns, Undisturbed;
    var started := StartedSteps(matrix, w, first, second, spec, 2);
    var end := Outcome(matrix, w, started);
    var lost := ReconcileStep(Conflicting(second));
    PromisedVersions(matrix, w, first, second, spec);
    StartedUpgrade(matrix, w, first, second, spec, 2);
    RankOfFrontend(end);
    OneRound(matrix, end, second);
    var caught := Next(matrix, end, CatchUp(end));
    ConflictKeeps(matrix, caught, second);
    FrontendFollows(matrix, caught, second);
    var after := Next(matrix, caught, lost);
    var touched := Next(matrix, after, Touches(after, Frontend));
    TouchedFrame(matrix, after, second);
    RunExtends(matrix, w, started, CatchUp(end));
    RunExtends(matrix, w, started + [CatchUp(end)], lost);
    RunExtends(matrix, w, started + [CatchUp(end)] + [lost], Touches(after, Frontend));
    RunExtends(matrix, w, started + [CatchUp(end)] + [lost] + [Touches(after, Frontend)], ReconcileStep(second));
    var upTo := started + [CatchUp(end)];
    RecordsStayConsistent(matrix, Unfold(matrix, w, upTo), upTo, |upTo|);
    assert Outcome(matrix, w, upTo) == Unfold(matrix, w, upTo)[|upTo|] by { OutcomeIsLast(matrix, w, upTo); }
    HealthTransfers(matrix, caught, touched, second);
    HealthyAssigns(matrix, touched, second);
    RollingRecord(caught);
    UnwrittenAdvanceIsTakenBack(matrix, caught, lost.env, touched, second);
  }

  lemma OutcomeIsLast(matrix: Matrix, w: World, steps: seq<Step>)
    ensures Outcome(matrix, w, steps) == Unfold(matrix, w, steps)[|steps|]
  {
  }

  lemma RollingRecord(w: World)
    requires CurrentPhase(w) == Some(RollingFrontend)
    ensures w.status.upgrade.Some? && WorkingRecord(w.spec, w.status, w.now) == w.status.upgrade
    ensures w.status.upgrade.value.phase == RollingFrontend
  {
  }

  /** A settled, primed frontend is rolled out, and a pass keeps its Deployment. */
  lemma FrontendFollows(matrix: Matrix, w: World, env: Env)
    requires Productive(matrix, w, ReconcileStep(env)) && Primed(w) && CurrentPhase(w) == Some(RollingFrontend)
    ensures ServiceRolledOut(w.spec, w.objects, Conflicting(env), Frontend, w.spec.version)
    ensures Frontend in Next(matrix, w, ReconcileStep(env)).objects.deployments
  {
    hide Next, StoreHealthy, CurrentPhase, ImageOf, ServerImage, PassAt, GeneratedFor;
    HealthyApplies(matrix, w, env, Frontend);
    GeneratedExists(w.spec, Next(matrix, w, ReconcileStep(env)).objects.deployments, Frontend,
                    PassAt(matrix, w, env).versions.value[Frontend]);
  }

  lemma GeneratedExists(spec: Spec, deployments: map<Service, Deployment>, service: Service, version: string)
    requires GeneratedFor(spec, deployments, service, version)
    ensures service in deployments
  {
  }

  lemma TouchedFrame(matrix: Matrix, w: World, env: Env)
    requires Frontend in w.objects.deployments
    ensures var touched := Next(matrix, w, Touches(w, Frontend));
            && touched.spec == w.spec && touched.status == w.status && touched.now == w.now + 1
            && touched.objects.pods == w.objects.pods && touched.objects.inspectors == w.objects.inspectors
            && !ServiceRolledOut(w.spec, touched.objects, env, Frontend, w.spec.version)
  {
    hide PassAt;
  }
}
