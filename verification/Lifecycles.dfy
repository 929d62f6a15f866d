/**
 A cluster's whole life: from a new resource there is a run that installs one version and
 then upgrades to another.  So the promises about runs are about runs that exist, and a
 healthy cluster is never in a state from which its upgrade cannot complete.
 */
module Lifecycles {
  import opened Wrappers
  import opened Versions
  import opened ClusterTypes
  import opened Persistence
  import opened Upgrades
  import opened Controller
  import opened PassFacts
  import opened UpgradeRuns
  import opened DeploymentFacts
  import opened UpgradeProgress
  import DatabaseRuns

  // ----- unfolding steps into a segment -----

  function Unfold(matrix: Matrix, w: World, steps: seq<Step>): (ws: seq<World>)
    ensures |ws| == |steps| + 1 && ws[0] == w
    decreases |steps|
  {
    if steps == [] then [w] else [w] + Unfold(matrix, Next(matrix, w, steps[0]), steps[1..])
  }

  function Outcome(matrix: Matrix, w: World, steps: seq<Step>): World {
    Unfold(matrix, w, steps)[|steps|]
  }

  lemma {:induction false} UnfoldIsSegment(matrix: Matrix, w: World, steps: seq<Step>)
    ensures IsSegment(matrix, Unfold(matrix, w, steps), steps)
    decreases |steps|
  {
    hide Next;
    if steps != [] {
      var rest := Unfold(matrix, Next(matrix, w, steps[0]), steps[1..]);
      UnfoldIsSegment(matrix, Next(matrix, w, steps[0]), steps[1..]);
      var ws := Unfold(matrix, w, steps);
      forall i | 0 <= i < |steps| ensures ws[i + 1] == Next(matrix, ws[i], steps[i]) {
        if i > 0 { assert ws[i] == rest[i - 1] && ws[i + 1] == rest[i] && steps[i] == steps[1..][i - 1]; }
      }
    }
  }

  lemma {:induction false} OutcomeOfTwo(matrix: Matrix, w: World, a: seq<Step>, b: seq<Step>)
    ensures Outcome(matrix, w, a + b) == Outcome(matrix, Outcome(matrix, w, a), b)
    decreases |a|
  {
    hide Next;
    if a == [] {
      assert a + b == b;
    } else {
      assert (a + b)[0] == a[0] && (a + b)[1..] == a[1..] + b;
      OutcomeOfTwo(matrix, Next(matrix, w, a[0]), a[1..], b);
    }
  }

  // ----- rounds: the Deployments catch up, then a pass -----

  function Settle(d: Deployment): Deployment {
    d.(observedGeneration := d.generation, updatedReplicas := d.Desired(), readyReplicas := d.Desired())
  }

  /** The Deployment controller brings every Deployment up to its template. */
  function CatchUp(w: World): Step {
    Environment(w.objects.(deployments := map s | s in w.objects.deployments :: Settle(w.objects.deployments[s])), w.databases)
  }

  function Rounds(matrix: Matrix, w: World, env: Env, n: nat): seq<Step>
    decreases n
  {
    if n == 0 then []
    else
      var caught := Next(matrix, w, CatchUp(w));
      [CatchUp(w), ReconcileStep(env)] + Rounds(matrix, Next(matrix, caught, ReconcileStep(env)), env, n - 1)
  }

  /** What an undisturbed step adds to an undisturbed continuation. */
  lemma UndisturbedCons(matrix: Matrix, w: World, step: Step, steps: seq<Step>)
    requires Undisturbed(w, step)
    requires AllUndisturbed(Unfold(matrix, Next(matrix, w, step), steps), steps)
    ensures AllUndisturbed(Unfold(matrix, w, [step] + steps), [step] + steps)
    ensures ProductivePasses(matrix, Unfold(matrix, w, [step] + steps), [step] + steps)
         == (if Productive(matrix, w, step) then 1 else 0)
            + ProductivePasses(matrix, Unfold(matrix, Next(matrix, w, step), steps), steps)
  {
    hide Next, Undisturbed, Productive;
    var all := [step] + steps;
    var rest := Unfold(matrix, Next(matrix, w, step), steps);
    assert all[0] == step && all[1..] == steps;
    var ws := Unfold(matrix, w, all);
    assert ws == [w] + rest && ws[1..] == rest;
    forall i | 0 < i < |all| ensures ws[i] == rest[i - 1] && all[i] == steps[i - 1] {}
  }

  // ----- health lasts -----

  /** No inspected store's Job is being deleted. */
  ghost predicate InspectorsReady(spec: Spec, objects: Objects) {
    forall store: Store :: spec.Inspected(store) && store in objects.inspectors ==> !objects.inspectors[store].deleting
  }

  /** Health depends on the spec, the pods and the inspectors alone. */
  lemma HealthTransfers(matrix: Matrix, a: World, b: World, env: Env)
    requires Healthy(matrix, a, env) && a.spec == b.spec && a.objects.pods == b.objects.pods && InspectorsReady(b.spec, b.objects)
    ensures Healthy(matrix, b, env)
  {
    hide Satisfied, FirstMessage;
    assert forall store :: a.objects.PodsOf(store) == b.objects.PodsOf(store);
  }

  lemma HealthyIsReady(matrix: Matrix, w: World, env: Env)
    requires Healthy(matrix, w, env)
    ensures InspectorsReady(w.spec, w.objects)
  {
    hide Satisfied, FirstMessage;
  }

  /** A healthy pass leaves pods and inspectors as healthy as it found them. */
  lemma HealthLasts(matrix: Matrix, w: World, env: Env)
    requires Healthy(matrix, w, env)
    ensures var next := Next(matrix, w, ReconcileStep(env));
            && Healthy(matrix, next, env)
            && next.spec == w.spec && next.objects.pods == w.objects.pods && InspectorsReady(w.spec, next.objects)
  {
    var next := Next(matrix, w, ReconcileStep(env));
    var p := ReconcilePersistence(matrix, w.spec, w.status, w.objects, env);
    assert next.objects == PassAt(matrix, w, env).objects && next.spec == w.spec;
    hide Next, PassAt, Mid, ReconcilePersistence, ReconcileMTLS, ReconcileUpgrade, ReconcileServices, ComputeReadyAndPhase,
         StoreHealthy, Assigns;
    HealthyPersistence(matrix, w, env);
    HealthyAssigns(matrix, w, env);
    AssigningPass(matrix, w, env);
    var u := ReconcileUpgrade(w.spec, Mid(matrix, w, env), w.objects, env, w.now);
    DatabaseRuns.ServicesKeepPods(w.spec, u.status, p.objects, env, u.versions);
    HealthTransfers(matrix, w, next, env);
  }

  lemma CatchUpFrame(matrix: Matrix, w: World)
    ensures var caught := Next(matrix, w, CatchUp(w));
            && CatchUp(w).Environment? && Undisturbed(w, CatchUp(w))
            && caught.spec == w.spec && caught.status == w.status
            && caught.objects == w.objects.(deployments := map s | s in w.objects.deployments :: Settle(w.objects.deployments[s]))
  {
  }

  lemma CatchUpKeepsHealth(matrix: Matrix, w: World, env: Env)
    requires Healthy(matrix, w, env)
    ensures Healthy(matrix, Next(matrix, w, CatchUp(w)), env)
  {
    hide Next, CatchUp, Healthy;
    CatchUpFrame(matrix, w);
    HealthyIsReady(matrix, w, env);
    HealthTransfers(matrix, w, Next(matrix, w, CatchUp(w)), env);
  }

  // ----- rounds -----

  /** A healthy state in which nothing stands in the way and the service being rolled has its template. */
  ghost predicate Underway(matrix: Matrix, w: World, env: Env) {
    Healthy(matrix, w, env) && Clear(w) && Primed(w)
  }

  lemma CaughtUpIsSettled(matrix: Matrix, w: World)
    requires Primed(w)
    ensures var caught := Next(matrix, w, CatchUp(w));
            CurrentPhase(caught) == CurrentPhase(w) && Settled(caught)
  {
    hide ImageOf, ServerImage;
  }

  /** A round is undisturbed, its pass is productive, and it brings the upgrade one phase on. */
  lemma OneRound(matrix: Matrix, w: World, env: Env)
    requires Underway(matrix, w, env)
    ensures var caught := Next(matrix, w, CatchUp(w));
            var next := Next(matrix, caught, ReconcileStep(env));
            && Undisturbed(w, CatchUp(w)) && CatchUp(w).Environment?
            && caught.spec == w.spec && Underway(matrix, caught, env) && Productive(matrix, caught, ReconcileStep(env))
            && next.spec == w.spec && Underway(matrix, next, env) && next.objects.pods == w.objects.pods
            && CurrentPhase(caught) == CurrentPhase(w)
            && Remaining(next) == (if Remaining(w) > 0 then Remaining(w) - 1 else 0)
  {
    hide Next, Healthy, Clear, Primed, Settled, CatchUp, CurrentPhase, Undisturbed, Remaining;
    var c, r := CatchUp(w), ReconcileStep(env);
    var caught := Next(matrix, w, c);
    CatchUpFrame(matrix, w);
    CaughtUpIsSettled(matrix, w);
    CatchUpKeepsHealth(matrix, w, env);
    ClearStep(matrix, w, c);
    PrimedStep(matrix, w, c);
    RankNeverGrows(matrix, w, c);
    HealthLasts(matrix, caught, env);
    HealthyPrimes(matrix, caught, env);
    PassIsUndisturbed(caught, env);
    ClearStep(matrix, caught, r);
    RankNeverGrows(matrix, caught, r);
    if Remaining(caught) > 0 { SettledAdvances(matrix, caught, env); }
  }

  lemma PassIsUndisturbed(w: World, env: Env)
    ensures Undisturbed(w, ReconcileStep(env))
  {
  }

  /** Rounds are undisturbed and productive, and each brings the upgrade one phase on. */
  lemma {:induction false} RoundsAdvance(matrix: Matrix, w: World, env: Env, n: nat)
    requires Underway(matrix, w, env)
    ensures var steps := Rounds(matrix, w, env, n);
            && AllUndisturbed(Unfold(matrix, w, steps), steps)
            && ProductivePasses(matrix, Unfold(matrix, w, steps), steps) == n
    ensures var end := Outcome(matrix, w, Rounds(matrix, w, env, n));
            && Underway(matrix, end, env) && end.spec == w.spec && end.objects.pods == w.objects.pods
            && Remaining(end) == (if Remaining(w) > n then Remaining(w) - n else 0)
    decreases n
  {
    hide Next, Underway, CatchUp, CurrentPhase, Undisturbed, Remaining, Productive;
    if n > 0 {
      var c, r := CatchUp(w), ReconcileStep(env);
      var caught := Next(matrix, w, c);
      var next := Next(matrix, caught, r);
      OneRound(matrix, w, env);
      RoundsAdvance(matrix, next, env, n - 1);
      var rest := Rounds(matrix, next, env, n - 1);
      PassIsUndisturbed(caught, env);
      NotProductive(matrix, w, c);
      hide AllUndisturbed, Unfold, ProductivePasses;
      UndisturbedCons(matrix, caught, r, rest);
      UndisturbedCons(matrix, w, c, [r] + rest);
      assert [c] + ([r] + rest) == [c, r] + rest;
      OneThen(matrix, caught, r, rest);
      OneThen(matrix, w, c, [r] + rest);
    } else {
      assert Unfold(matrix, w, []) == [w];
    }
  }

  lemma NotProductive(matrix: Matrix, w: World, step: Step)
    requires step.Environment?
    ensures !Productive(matrix, w, step)
  {
  }

  lemma OneThen(matrix: Matrix, w: World, step: Step, steps: seq<Step>)
    ensures Outcome(matrix, w, [step] + steps) == Outcome(matrix, Next(matrix, w, step), steps)
  {
    hide Next;
    assert ([step] + steps)[1..] == steps;
  }

  // ----- upgrading -----

  /** A pass, then `n` rounds. */
  function UpgradeSteps(matrix: Matrix, w: World, env: Env, n: nat): seq<Step> {
    [ReconcileStep(env)] + Rounds(matrix, Next(matrix, w, ReconcileStep(env)), env, n)
  }

  /** After a pass and `n` rounds over a clear, healthy cluster that much of its upgrade is done. */
  lemma UpgradeAdvances(matrix: Matrix, w: World, env: Env, n: nat)
    requires Healthy(matrix, w, env) && Clear(w)
    ensures var next := Next(matrix, w, ReconcileStep(env));
            var end := Outcome(matrix, w, UpgradeSteps(matrix, w, env, n));
            && Underway(matrix, end, env) && end.spec == w.spec && end.objects.pods == w.objects.pods
            && Remaining(end) == (if Remaining(next) > n then Remaining(next) - n else 0)
  {
    hide Next, Healthy, Clear, Primed, Rounds, Remaining, Unfold, Outcome;
    var r := ReconcileStep(env);
    HealthLasts(matrix, w, env);
    HealthyPrimes(matrix, w, env);
    PassIsUndisturbed(w, env);
    ClearStep(matrix, w, r);
    RoundsAdvance(matrix, Next(matrix, w, r), env, n);
    OneThen(matrix, w, r, Rounds(matrix, Next(matrix, w, r), env, n));
  }

  /**
   From any state of a healthy cluster in which nothing stands in the way, mid-upgrade or not
   and with stores of either kind, there are steps after which no upgrade is left to do; they
   meet every hypothesis of `UpgradeCompletes`.
   */
  lemma UpgradeCanComplete(matrix: Matrix, w: World, env: Env)
    requires Healthy(matrix, w, env) && Clear(w)
    ensures var steps := UpgradeSteps(matrix, w, env, 10);
            var ws := Unfold(matrix, w, steps);
            && IsSegment(matrix, ws, steps) && AllUndisturbed(ws, steps)
            && ProductivePasses(matrix, ws[1..], steps[1..]) >= Enough(w.spec)
            && ws[|steps|].status.version in {"", w.spec.version} && ws[|steps|].spec == w.spec
  {
    hide Next, Healthy, Clear, Primed, Rounds, AllUndisturbed, ProductivePasses, IsSegment, Remaining, Productive;
    var r := ReconcileStep(env);
    var next := Next(matrix, w, r);
    UpgradeAdvances(matrix, w, env, 10);
    HealthLasts(matrix, w, env);
    HealthyPrimes(matrix, w, env);
    PassIsUndisturbed(w, env);
    ClearStep(matrix, w, r);
    RoundsAdvance(matrix, next, env, 10);
    var rest := Rounds(matrix, next, env, 10);
    var steps := UpgradeSteps(matrix, w, env, 10);
    assert steps[0] == r && steps[1..] == rest;
    UndisturbedCons(matrix, w, r, rest);
    UnfoldIsSegment(matrix, w, steps);
    var ws := Unfold(matrix, w, steps);
    assert ws[1..] == Unfold(matrix, next, rest);
    UpgradeCompletes(matrix, ws, steps);
  }

  // ----- installing -----

  ghost predicate Scaled(spec: Spec) {
    forall s :: s in spec.replicas ==> spec.replicas[s] >= 1
  }

  /** Every enabled service has a Deployment with the spec's positive replica count, all of them ready. */
  ghost predicate Serving(spec: Spec, deployments: map<Service, Deployment>) {
    forall s :: s in EnabledServices(spec) ==> s in deployments && deployments[s].readyReplicas >= 1
  }

  lemma AppliedAreScaled(spec: Spec, deployments: map<Service, Deployment>, versions: Assignment, service: Service)
    requires Scaled(spec) && service in EnabledServices(spec) && service in versions
    ensures var after := ApplyServices(spec, deployments, versions, EnabledServices(spec));
            service in after && after[service].Desired() >= 1
  {
    hide ApplyServices, ServerImage, EnabledServices;
    ServicesDistinct(spec);
    AppliedAt(spec, deployments, versions, EnabledServices(spec), service);
  }

  lemma ApplyKeepsReady(spec: Spec, deployments: map<Service, Deployment>, versions: Assignment, service: Service)
    requires service in EnabledServices(spec) && service in versions
    requires service in deployments && deployments[service].readyReplicas >= 1
    ensures var after := ApplyServices(spec, deployments, versions, EnabledServices(spec));
            service in after && after[service].readyReplicas >= 1
  {
    hide ApplyServices, BuildDeployment, EnabledServices;
    ServicesDistinct(spec);
    AppliedAt(spec, deployments, versions, EnabledServices(spec), service);
  }

  /** A healthy pass over a cluster with no upgrade to do applies every enabled service at the spec's version. */
  lemma UniformPass(matrix: Matrix, w: World, env: Env)
    requires Healthy(matrix, w, env) && w.status.version in {"", w.spec.version}
    ensures var next := Next(matrix, w, ReconcileStep(env));
            && next.spec == w.spec && next.status.upgrade.None? && next.status.version in {"", w.spec.version}
            && next.objects.deployments
               == ApplyServices(w.spec, w.objects.deployments, UniformVersions(w.spec, w.spec.version), EnabledServices(w.spec))
  {
    hide PassAt, Next, Mid, Healthy, ApplyServices, EnabledServices, UniformVersions, Commits;
    HealthyPass(matrix, w, env);
    MidKeeps(matrix, w, env);
    NextFrame(matrix, w, env);
  }

  /** Once every enabled service has a ready replica, a healthy pass finds the cluster Ready, upgrading or not. */
  lemma ServingIsReady(matrix: Matrix, w: World, env: Env)
    requires Healthy(matrix, w, env) && Serving(w.spec, w.objects.deployments) && !w.spec.mtls
    ensures var next := Next(matrix, w, ReconcileStep(env)).status;
            && next.conditions.ready
            && next.phase == (if next.upgrade.Some? then Upgrading else ReadyPhase)
  {
    HealthyPass(matrix, w, env);
    HealthyAssigns(matrix, w, env);
    assert Next(matrix, w, ReconcileStep(env)).status == PassAt(matrix, w, env).status && !PassAt(matrix, w, env).failed;
    hide PassAt, Next, Mid, ReconcilePersistence, ReconcileMTLS, ReconcileUpgrade, ReconcileServices, StoreHealthy, Serving, Commits,
         EnabledServices, ApplyServices;
    var p := ReconcilePersistence(matrix, w.spec, w.status, w.objects, env);
    var u := ReconcileUpgrade(w.spec, Mid(matrix, w, env), w.objects, env, w.now);
    AssigningPass(matrix, w, env);
    UpgradeKeeps(w.spec, Mid(matrix, w, env), w.objects, env, w.now);
    forall s ensures s in EnabledServices(w.spec) <==> s in u.versions {
      StageCovers(w.spec, Mid(matrix, w, env), w.objects, env, w.now, s);
    }
    ServicesAvailable(w.spec, u.status, p.objects, env, u.versions);
    ServicesKeep(w.spec, u.status, p.objects, env, u.versions);
  }

  /** So with no upgrade to do it records the spec's version. */
  lemma ServingPass(matrix: Matrix, w: World, env: Env)
    requires Healthy(matrix, w, env) && w.status.version in {"", w.spec.version} && !w.spec.mtls
    requires Serving(w.spec, w.objects.deployments)
    ensures Next(matrix, w, ReconcileStep(env)).status.version == w.spec.version
  {
    UniformPass(matrix, w, env);
    HealthyPass(matrix, w, env);
    assert Next(matrix, w, ReconcileStep(env)).status == PassAt(matrix, w, env).status && !PassAt(matrix, w, env).failed;
    hide PassAt, Next, Mid, ApplyServices, EnabledServices, UniformVersions, Commits, Healthy, ReconcileUpgrade, Serving;
    ServingIsReady(matrix, w, env);
    PassOutcome(matrix, w, env);
  }

  lemma ServicesAvailable(spec: Spec, status: Status, objects: Objects, env: Env, versions: Assignment)
    requires status.conditions.schemaReady && !env.renderFails && env.applied.None? && !env.rollupGetFails
    requires Serving(spec, objects.deployments) && forall s :: s in EnabledServices(spec) ==> s in versions
    ensures var r := ReconcileServices(spec, status, objects, env, versions);
            !r.failed && r.status.conditions.available
  {
    hide ApplyServices, EnabledServices, Rollup;
    var services := EnabledServices(spec);
    AppliedExist(spec, objects.deployments, versions, services);
    forall s | s in services ensures ApplyServices(spec, objects.deployments, versions, services)[s].readyReplicas >= 1 {
      ApplyKeepsReady(spec, objects.deployments, versions, s);
    }
  }

  /** After a healthy pass every enabled service has a Deployment with the spec's positive replica count. */
  lemma HealthyScales(matrix: Matrix, w: World, env: Env, service: Service)
    requires Healthy(matrix, w, env) && Scaled(w.spec) && service in EnabledServices(w.spec)
    ensures var after := Next(matrix, w, ReconcileStep(env)).objects.deployments;
            service in after && after[service].Desired() >= 1
  {
    hide Next, Mid, ApplyServices, EnabledServices, Commits, Healthy, ReconcileUpgrade, Scaled;
    HealthyPass(matrix, w, env);
    var u := ReconcileUpgrade(w.spec, Mid(matrix, w, env), w.objects, env, w.now);
    StageCovers(w.spec, Mid(matrix, w, env), w.objects, env, w.now, service);
    AppliedAreScaled(w.spec, w.objects.deployments, u.versions, service);
  }

  /** When the Deployments have then caught up, all of them serve. */
  lemma CaughtUpServes(matrix: Matrix, w: World, env: Env)
    requires Healthy(matrix, w, env) && Scaled(w.spec)
    ensures var deployed := Next(matrix, w, ReconcileStep(env));
            Serving(w.spec, Next(matrix, deployed, CatchUp(deployed)).objects.deployments)
  {
    hide Next, Healthy, EnabledServices, Scaled, CatchUp;
    var deployed := Next(matrix, w, ReconcileStep(env));
    CatchUpFrame(matrix, deployed);
    forall s | s in EnabledServices(w.spec)
      ensures s in deployed.objects.deployments && deployed.objects.deployments[s].Desired() >= 1
    {
      HealthyScales(matrix, w, env, s);
    }
  }

  /** A pass deploys, the Deployments come up, and the next pass finds the cluster ready. */
  function InstallSteps(matrix: Matrix, w: World, env: Env): seq<Step> {
    [ReconcileStep(env)] + Rounds(matrix, Next(matrix, w, ReconcileStep(env)), env, 1)
  }

  /** From a healthy state with no upgrade to do there are steps after which the running version is the spec's. */
  lemma InstallCanComplete(matrix: Matrix, w: World, env: Env)
    requires Healthy(matrix, w, env) && w.status.version in {"", w.spec.version} && !w.spec.mtls && Scaled(w.spec)
    ensures var installed := Outcome(matrix, w, InstallSteps(matrix, w, env));
            && installed.status.version == w.spec.version && installed.status.upgrade.None?
            && installed.spec == w.spec && installed.objects.pods == w.objects.pods
            && InspectorsReady(w.spec, installed.objects)
  {
    var r := ReconcileStep(env);
    hide Next, Healthy, UniformVersions, ApplyServices, EnabledServices, Outcome, Serving, Scaled, CatchUp, InspectorsReady;
    var deployed := Next(matrix, w, r);
    var caught := Next(matrix, deployed, CatchUp(deployed));
    InstallOutcome(matrix, w, env);
    UniformPass(matrix, w, env);
    HealthLasts(matrix, w, env);
    CaughtUpServes(matrix, w, env);
    CatchUpFrame(matrix, deployed);
    CatchUpKeepsHealth(matrix, deployed, env);
    UniformPass(matrix, caught, env);
    ServingPass(matrix, caught, env);
    HealthLasts(matrix, caught, env);
  }

  lemma InstallOutcome(matrix: Matrix, w: World, env: Env)
    ensures var deployed := Next(matrix, w, ReconcileStep(env));
            var caught := Next(matrix, deployed, CatchUp(deployed));
            Outcome(matrix, w, InstallSteps(matrix, w, env)) == Next(matrix, caught, ReconcileStep(env))
  {
    hide Next, CatchUp;
    var r := ReconcileStep(env);
    var deployed := Next(matrix, w, r);
    var c := CatchUp(deployed);
    var caught := Next(matrix, deployed, c);
    assert Rounds(matrix, deployed, env, 1) == [c, r];
    assert InstallSteps(matrix, w, env) == [r, c, r];
    assert [r, c, r][1..] == [c, r] && [c, r][1..] == [r] && [r][1..] == [];
    var last := Next(matrix, caught, r);
    assert Unfold(matrix, caught, [r]) == [caught, last];
    assert Unfold(matrix, deployed, [c, r]) == [deployed, caught, last];
  }

  // ----- a whole life -----

  /** A running version, once recorded, is never cleared. */
  lemma VersionStaysRecorded(matrix: Matrix, w: World, step: Step)
    requires w.status.version != "" && w.spec.version != "" && RecordConsistent(w)
    ensures Next(matrix, w, step).status.version != ""
  {
    if step.ReconcileStep? && Commits(matrix, w, step.env) {
      hide PassAt, Mid, ServiceRolledOut;
      PassOutcome(matrix, w, step.env);
      MidKeeps(matrix, w, step.env);
      UpgradeStageCases(w.spec, Mid(matrix, w, step.env), w.objects, step.env, w.now);
    } else {
      hide PassAt;
      StatusKept(matrix, w, step);
    }
  }

  lemma {:induction false} VersionNeverCleared(matrix: Matrix, w: World, steps: seq<Step>)
    requires w.status.version != "" && w.spec.version != "" && RecordConsistent(w)
    requires forall i :: 0 <= i < |steps| ==> !steps[i].EditSpec?
    ensures Outcome(matrix, w, steps).status.version != ""
    decreases |steps|
  {
    hide Next, RecordConsistent;
    if steps != [] {
      var next := Next(matrix, w, steps[0]);
      VersionStaysRecorded(matrix, w, steps[0]);
      RankNeverGrows(matrix, w, steps[0]);
      ConsistentStep(matrix, w, steps[0]);
      VersionNeverCleared(matrix, next, steps[1..]);
    }
  }

  lemma {:induction false} RoundsNeverEdit(matrix: Matrix, w: World, env: Env, n: nat)
    ensures forall i :: 0 <= i < |Rounds(matrix, w, env, n)| ==> !Rounds(matrix, w, env, n)[i].EditSpec?
    decreases n
  {
    hide Next;
    if n > 0 {
      RoundsNeverEdit(matrix, Next(matrix, Next(matrix, w, CatchUp(w)), ReconcileStep(env)), env, n - 1);
    }
  }

  lemma UpgradeNeverEdits(matrix: Matrix, w: World, env: Env, n: nat)
    ensures forall i :: 0 <= i < |UpgradeSteps(matrix, w, env, n)| ==> !UpgradeSteps(matrix, w, env, n)[i].EditSpec?
  {
    hide Next, Rounds;
    RoundsNeverEdit(matrix, Next(matrix, w, ReconcileStep(env)), env, n);
  }

  lemma EditFrame(matrix: Matrix, w: World, spec: Spec)
    ensures Next(matrix, w, EditSpec(spec)) == w.(now := w.now + 1, spec := spec)
  {
    hide PassAt;
  }

  /** Install the version the resource was created with, then edit the spec to another. */
  function EditedSteps(matrix: Matrix, w: World, first: Env, spec: Spec): seq<Step> {
    InstallSteps(matrix, w, first) + [EditSpec(spec)]
  }

  /** A new resource with stores healthy for both versions, and what it takes to be ready. */
  ghost predicate Promising(matrix: Matrix, w: World, first: Env, second: Env, spec: Spec) {
    && w.status == NEW_STATUS && !w.spec.mtls && Scaled(w.spec) && w.spec.version != "" && spec.version !in {"", w.spec.version}
    && spec == w.spec.(version := spec.version, overrides := spec.overrides, serviceOverrides := spec.serviceOverrides)
    && Healthy(matrix, w, first) && Healthy(matrix, w.(spec := spec), second)
  }

  /** No pod template of an enabled service pins another label or image than the spec's version asks for. */
  ghost predicate AllHarmless(spec: Spec) {
    forall s :: Enabled(spec, s) ==> Harmless(spec, s, spec.version)
  }

  /** After the install and the edit, the first version runs, a new upgrade is due, and the cluster is healthy for it. */
  lemma InstalledAndEdited(matrix: Matrix, w: World, first: Env, second: Env, spec: Spec)
    requires Promising(matrix, w, first, second, spec)
    ensures var edited := Outcome(matrix, w, EditedSteps(matrix, w, first, spec));
            && edited.spec == spec && edited.status.version == w.spec.version && edited.status.upgrade.None?
            && Healthy(matrix, edited, second) && RecordConsistent(edited) && edited.objects.pods == w.objects.pods
            && CurrentPhase(edited) == Some(Pending)
            && Remaining(edited) == Enough(spec)
            && (AllHarmless(spec) ==> Clear(edited))
  {
    var install, edit := InstallSteps(matrix, w, first), EditSpec(spec);
    var installed := Outcome(matrix, w, install);
    var edited := Next(matrix, installed, edit);
    hide Next, Healthy, InstallSteps, Unfold, Scaled, InspectorsReady, Harmless;
    assert Outcome(matrix, installed, [edit]) == edited by {
      OneThen(matrix, installed, edit, []);
      assert [edit] + [] == [edit];
      OutcomeOfNone(matrix, edited);
    }
    OutcomeOfTwo(matrix, w, install, [edit]);
    hide Outcome;
    InstallCanComplete(matrix, w, first);
    EditFrame(matrix, installed, spec);
    SameInspectors(w.spec, spec, installed.objects);
    HealthTransfers(matrix, w.(spec := spec), edited, second);
  }

  lemma OutcomeOfNone(matrix: Matrix, w: World)
    ensures Outcome(matrix, w, []) == w
  {
  }

  lemma SameInspectors(a: Spec, b: Spec, objects: Objects)
    requires a.workloadIdentity == b.workloadIdentity && a.defaultStore == b.defaultStore && a.visibilityStore == b.visibilityStore
    requires InspectorsReady(a, objects)
    ensures InspectorsReady(b, objects)
  {
    assert forall store: Store :: a.Inspected(store) == b.Inspected(store);
  }

  lemma UnfoldIsRun(matrix: Matrix, w: World, steps: seq<Step>)
    requires w.status == NEW_STATUS
    ensures IsRun(matrix, Unfold(matrix, w, steps), steps)
  {
    hide Next, Unfold;
    UnfoldIsSegment(matrix, w, steps);
  }

  /**
   A new cluster with healthy stores, of either kind, has a run that installs the version it
   was created with, records it, and, after an edit to another version, upgrades to that one.
   */
  lemma InstallThenUpgradeHappens(matrix: Matrix, w: World, first: Env, second: Env, spec: Spec)
    requires Promising(matrix, w, first, second, spec) && AllHarmless(spec)
    ensures var start := EditedSteps(matrix, w, first, spec);
            var edited := Outcome(matrix, w, start);
            var steps := start + UpgradeSteps(matrix, edited, second, 10);
            && IsRun(matrix, Unfold(matrix, w, steps), steps)
            && edited.status.version == w.spec.version
            && Outcome(matrix, w, steps).status.version == spec.version
  {
    hide Next, Promising, EditedSteps, UpgradeSteps, Unfold, AllHarmless, Healthy, Clear, RecordConsistent, CurrentPhase,
         AllUndisturbed, ProductivePasses, IsSegment;
    var start := EditedSteps(matrix, w, first, spec);
    var edited := Outcome(matrix, w, start);
    var upgrade := UpgradeSteps(matrix, edited, second, 10);
    InstalledAndEdited(matrix, w, first, second, spec);
    UpgradeCanComplete(matrix, edited, second);
    UpgradeNeverEdits(matrix, edited, second, 10);
    PromisedVersions(matrix, w, first, second, spec);
    VersionNeverCleared(matrix, edited, upgrade);
    OutcomeOfTwo(matrix, w, start, upgrade);
    UnfoldIsRun(matrix, w, start + upgrade);
  }

  lemma PromisedVersions(matrix: Matrix, w: World, first: Env, second: Env, spec: Spec)
    requires Promising(matrix, w, first, second, spec)
    ensures w.status == NEW_STATUS && w.spec.version != "" && spec.version != ""
  {
    hide Healthy;
  }
}
